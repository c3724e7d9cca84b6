/** The oracle's two folds over the API server log: tainting the objects of the controller, and the end state. */
module Oracle {
  import opened TriggerExpr

  // ----- Objects related to the controller -----

  /** What an API event says of its object. Fields are looked up at the top level and then under
      `metadata`; a missing uid is None, and None takes part in the tainting as any uid does. */
  datatype ApiEvent = ApiEvent(
    rtype: string,
    key: string,
    sieveTag: bool,
    uid: Option<string>,
    owners: Option<seq<string>>,
    metaUid: Option<string>,
    metaOwners: Option<seq<string>>)
  {
    function Uid(): Option<string> {
      if uid.Some? then uid else metaUid
    }

    function Owners(): Option<seq<string>> {
      if owners.Some? then owners else metaOwners
    }

    predicate Tagged() {
      rtype == "pod" && sieveTag
    }

    /** A tagged pod without a uid or owner references at its top level: a failed lookup. */
    predicate Incomplete() {
      Tagged() && (uid.None? || owners.None?)
    }
  }

  type Uid = Option<string>

  /** One of the two objects owns the other. */
  predicate Linked(events: seq<ApiEvent>, a: Uid, b: Uid) {
    exists e :: e in events && e.Owners().Some? && (Owns(e, a, b) || Owns(e, b, a))
  }

  predicate Owns(e: ApiEvent, a: Uid, b: Uid)
    requires e.Owners().Some?
  {
    a == e.Uid() && b.Some? && b.value in e.Owners().value
  }

  /** A chain of owner references, in either direction, from a tagged pod. */
  predicate Chain(events: seq<ApiEvent>, path: seq<Uid>) {
    |path| > 0
    && (exists e :: e in events && e.Tagged() && e.uid == path[0])
    && forall i :: 0 <= i < |path| - 1 ==> Linked(events, path[i], path[i + 1])
  }

  ghost predicate Connected(events: seq<ApiEvent>, u: Uid) {
    exists path :: Chain(events, path) && path[|path| - 1] == u
  }

  lemma {:induction false} ExtendChain(events: seq<ApiEvent>, u: Uid, v: Uid)
    requires Connected(events, u) && Linked(events, u, v)
    ensures Connected(events, v)
  {
    var path :| Chain(events, path) && path[|path| - 1] == u;
    var longer := path + [v];
    forall i | 0 <= i < |longer| - 1 ensures Linked(events, longer[i], longer[i + 1]) {
      assert i < |path| - 1 ==> longer[i + 1] == path[i + 1];
    }
    assert Chain(events, longer);
  }

  lemma {:induction false} TaggedIsConnected(events: seq<ApiEvent>, e: ApiEvent)
    requires e in events && e.Tagged()
    ensures Connected(events, e.uid)
  {
    assert Chain(events, [e.uid]);
  }

  /** No reference crosses the border of the set. */
  predicate Settled(e: ApiEvent, tainted: set<Uid>) {
    e.Owners().Some? ==>
      forall o :: o in e.Owners().value ==> (Some(o) in tainted <==> e.Uid() in tainted)
  }

  lemma {:induction false} ChainStaysInside(events: seq<ApiEvent>, tainted: set<Uid>, path: seq<Uid>, k: nat)
    requires forall e :: e in events ==> Settled(e, tainted) && (e.Tagged() ==> e.uid in tainted)
    requires Chain(events, path) && k < |path|
    ensures path[k] in tainted
  {
    if k > 0 {
      ChainStaysInside(events, tainted, path, k - 1);
      assert Linked(events, path[k - 1], path[k - 1 + 1]);
      var e :| e in events && e.Owners().Some? && (Owns(e, path[k - 1], path[k]) || Owns(e, path[k], path[k - 1]));
      assert Settled(e, tainted);
    }
  }

  function OwnerSet(owners: seq<string>): (r: set<Uid>)
    ensures forall o :: o in owners ==> Some(o) in r
    ensures forall u :: u in r ==> u.Some? && u.value in owners
  {
    if owners == [] then {} else OwnerSet(owners[1..]) + {Some(owners[0])}
  }

  /** Every uid that the events mention. */
  function Mentioned(events: seq<ApiEvent>): (r: set<Uid>)
    ensures forall e :: e in events ==> e.Uid() in r
    ensures forall e :: e in events && e.Owners().Some? ==> OwnerSet(e.Owners().value) <= r
  {
    if events == [] then {}
    else
      var e := events[0];
      Mentioned(events[1..]) + {e.Uid()} + if e.Owners().Some? then OwnerSet(e.Owners().value) else {}
  }

  ghost predicate Sound(events: seq<ApiEvent>, tainted: set<Uid>) {
    tainted <= Mentioned(events) && forall u :: u in tainted ==> Connected(events, u)
  }

  lemma {:induction false} OwnerIsSound(events: seq<ApiEvent>, e: ApiEvent, tainted: set<Uid>, owner: string)
    requires e in events && Sound(events, tainted) && e.Uid() in tainted && e.Owners().Some?
    requires owner in e.Owners().value
    ensures Sound(events, tainted + {Some(owner)})
  {
    assert Owns(e, e.Uid(), Some(owner));
    ExtendChain(events, e.Uid(), Some(owner));
  }

  lemma {:induction false} OwnedIsSound(events: seq<ApiEvent>, e: ApiEvent, tainted: set<Uid>, owner: string)
    requires e in events && Sound(events, tainted) && Some(owner) in tainted && e.Owners().Some?
    requires owner in e.Owners().value
    ensures Sound(events, tainted + {e.Uid()})
  {
    assert Owns(e, e.Uid(), Some(owner));
    ExtendChain(events, Some(owner), e.Uid());
  }

  /** The owners of a tainted object are tainted. */
  method TaintOwners(events: seq<ApiEvent>, e: ApiEvent, owners: seq<string>, tainted: set<Uid>) returns (r: set<Uid>,
                     grew: bool)
    requires e in events && e.Owners() == Some(owners) && e.Uid() in tainted && Sound(events, tainted)
    ensures Sound(events, r) && tainted <= r && (grew <==> r != tainted)
    ensures forall o :: o in owners ==> Some(o) in r
  {
    r, grew := tainted, false;
    for i := 0 to |owners|
      invariant Sound(events, r) && tainted <= r && (grew <==> r != tainted)
      invariant forall k :: 0 <= k < i ==> Some(owners[k]) in r
    {
      if Some(owners[i]) !in r {
        OwnerIsSound(events, e, r, owners[i]);
        r := r + {Some(owners[i])};
        grew := true;
      }
    }
  }

  /** An object with a tainted owner is tainted. */
  method TaintOwned(events: seq<ApiEvent>, e: ApiEvent, owners: seq<string>, tainted: set<Uid>) returns (r: set<Uid>,
                    grew: bool)
    requires e in events && e.Owners() == Some(owners) && e.Uid() !in tainted && Sound(events, tainted)
    ensures Sound(events, r) && r == (if grew then tainted + {e.Uid()} else tainted)
    ensures !grew ==> forall o :: o in owners ==> Some(o) !in r
  {
    r, grew := tainted, false;
    for i := 0 to |owners|
      invariant Sound(events, r) && r == if grew then tainted + {e.Uid()} else tainted
      invariant !grew ==> forall k :: 0 <= k < i ==> Some(owners[k]) !in r
    {
      if Some(owners[i]) in r {
        OwnedIsSound(events, e, r, owners[i]);
        r := r + {e.Uid()};
        grew := true;
      }
    }
  }

  /** The body of the tainting loop for one event. */
  method TaintEvent(events: seq<ApiEvent>, e: ApiEvent, tainted: set<Uid>) returns (r: set<Uid>, grew: bool)
    requires e in events && Sound(events, tainted)
    ensures Sound(events, r) && tainted <= r && (grew <==> r != tainted)
    ensures !grew ==> Settled(e, r)
  {
    if e.Owners().None? {
      r, grew := tainted, false;
    } else if e.Uid() in tainted {
      r, grew := TaintOwners(events, e, e.Owners().value, tainted);
    } else {
      r, grew := TaintOwned(events, e, e.Owners().value, tainted);
    }
  }

  /** One pass over all the events. */
  method TaintPass(events: seq<ApiEvent>, tainted: set<Uid>) returns (r: set<Uid>, keepTainting: bool)
    requires Sound(events, tainted)
    ensures Sound(events, r) && tainted <= r && (keepTainting <==> r != tainted)
    ensures !keepTainting ==> forall e :: e in events ==> Settled(e, r)
  {
    r, keepTainting := tainted, false;
    for i := 0 to |events|
      invariant Sound(events, r) && tainted <= r && (keepTainting <==> r != tainted)
      invariant !keepTainting ==> forall k :: 0 <= k < i ==> Settled(events[k], r)
    {
      var grew;
      r, grew := TaintEvent(events, events[i], r);
      keepTainting := keepTainting || grew;
    }
  }

  predicate Seeded(e: ApiEvent, tainted: set<Uid>) {
    !e.Incomplete() && (e.Tagged() ==> e.uid in tainted)
  }

  /** The uids of the tagged pods and of their owners; None if a tagged pod lacks either at its top level. */
  method TaggedPods(events: seq<ApiEvent>) returns (r: Option<set<Uid>>)
    ensures r.None? <==> exists e :: e in events && e.Incomplete()
    ensures r.Some? ==> Sound(events, r.value) && forall e :: e in events && e.Tagged() ==> e.uid in r.value
  {
    var tainted: set<Uid> := {};
    for i := 0 to |events|
      invariant Sound(events, tainted) && SeededUpTo(events, i, tainted)
    {
      if events[i].Incomplete() {
        return None;
      }
      ghost var before := tainted;
      tainted := SeedEvent(events, events[i], tainted);
      SeededNext(events, i, before, tainted);
    }
    r := Some(tainted);
    AllSeeded(events, tainted);
  }

  ghost predicate SeededUpTo(events: seq<ApiEvent>, n: nat, tainted: set<Uid>)
    requires n <= |events|
  {
    forall k :: 0 <= k < n ==> Seeded(events[k], tainted)
  }

  lemma {:induction false} SeededNext(events: seq<ApiEvent>, i: nat, before: set<Uid>, tainted: set<Uid>)
    requires i < |events| && SeededUpTo(events, i, before) && before <= tainted && Seeded(events[i], tainted)
    ensures SeededUpTo(events, i + 1, tainted)
  {
  }

  lemma {:induction false} AllSeeded(events: seq<ApiEvent>, tainted: set<Uid>)
    requires SeededUpTo(events, |events|, tainted)
    ensures forall e :: e in events ==> Seeded(e, tainted)
  {
  }

  /** A tagged pod and its owners are tainted. */
  method SeedEvent(events: seq<ApiEvent>, e: ApiEvent, tainted: set<Uid>) returns (r: set<Uid>)
    requires e in events && !e.Incomplete() && Sound(events, tainted)
    ensures Sound(events, r) && tainted <= r && Seeded(e, r)
  {
    r := tainted;
    if e.Tagged() {
      TaggedIsConnected(events, e);
      var grew;
      r, grew := TaintOwners(events, e, e.owners.value, tainted + {e.uid});
    }
  }

  /** Tainting until nothing changes yields exactly the uids connected to a tagged pod. */
  method Taint(events: seq<ApiEvent>, seeds: set<Uid>) returns (tainted: set<Uid>)
    requires Sound(events, seeds) && forall e :: e in events && e.Tagged() ==> e.uid in seeds
    ensures forall u :: u in tainted <==> Connected(events, u)
  {
    tainted := seeds;
    var keepTainting := true;
    while keepTainting
      invariant Sound(events, tainted) && seeds <= tainted
      invariant !keepTainting ==> forall e :: e in events ==> Settled(e, tainted)
      decreases Mentioned(events) - tainted, keepTainting
    {
      tainted, keepTainting := TaintPass(events, tainted);
    }
    TaintedIsConnected(events, tainted);
  }

  /** The keys of the events whose uid is tainted, each once. */
  method RelatedKeys(events: seq<ApiEvent>, tainted: set<Uid>) returns (list: seq<string>)
    ensures forall key :: key in list <==> exists e :: e in events && e.key == key && e.Uid() in tainted
    ensures forall i, j :: 0 <= i < j < |list| ==> list[i] != list[j]
  {
    list := [];
    for i := 0 to |events|
      invariant forall key :: key in list <==> exists e :: e in events[..i] && e.key == key && e.Uid() in tainted
      invariant forall i, j :: 0 <= i < j < |list| ==> list[i] != list[j]
    {
      ghost var before := list;
      if events[i].Uid() in tainted && events[i].key !in list {
        list := list + [events[i].key];
      }
      OneMoreKey(events, i, tainted, before, list);
    }
    assert events[..|events|] == events;
  }

  lemma {:induction false} OneMoreKey(events: seq<ApiEvent>, i: nat, tainted: set<Uid>, before: seq<string>,
                                      list: seq<string>)
    requires i < |events|
    requires forall key :: key in before <==> exists e :: e in events[..i] && e.key == key && e.Uid() in tainted
    requires list == if events[i].Uid() in tainted && events[i].key !in before then before + [events[i].key] else before
    ensures forall key :: key in list <==> exists e :: e in events[..i + 1] && e.key == key && e.Uid() in tainted
  {
    var sofar := events[..i + 1];
    assert sofar == events[..i] + [events[i]];
    forall key
      ensures key in list <==> exists e :: e in sofar && e.key == key && e.Uid() in tainted
    {
      if key in before {
        var e :| e in events[..i] && e.key == key && e.Uid() in tainted;
        assert e in sofar;
      } else if key in list {
        assert events[i] in sofar;
      }
    }
  }

  // ----- Sorting the keys -----

  /** The order of strings by their code points. */
  predicate Precedes(a: string, b: string) {
    b != "" && (a == "" || a[0] < b[0] || (a[0] == b[0] && Precedes(a[1..], b[1..])))
  }

  lemma {:induction false} PrecedesIsTotal(a: string, b: string)
    ensures a == b || Precedes(a, b) || Precedes(b, a)
    ensures !(Precedes(a, b) && Precedes(b, a)) && !Precedes(a, a)
  {
    if a != "" {
      PrecedesIsTotal(a[1..], if b == "" then "" else b[1..]);
      if b != "" && a[0] == b[0] && a[1..] == b[1..] {
        assert a == [a[0]] + a[1..] == b;
      }
    }
  }

  lemma {:induction false} PrecedesIsTransitive(a: string, b: string, c: string)
    requires Precedes(a, b) && Precedes(b, c)
    ensures Precedes(a, c)
  {
    if a != "" && a[0] == b[0] == c[0] {
      PrecedesIsTransitive(a[1..], b[1..], c[1..]);
    }
  }

  predicate Increasing(keys: seq<string>) {
    forall i, j :: 0 <= i < j < |keys| ==> Precedes(keys[i], keys[j])
  }

  function Insert(key: string, keys: seq<string>): seq<string> {
    if keys == [] || Precedes(key, keys[0]) then [key] + keys else [keys[0]] + Insert(key, keys[1..])
  }

  lemma {:induction false} InsertSorts(key: string, keys: seq<string>)
    requires Increasing(keys) && key !in keys
    ensures Increasing(Insert(key, keys))
    ensures forall k :: k in Insert(key, keys) <==> k == key || k in keys
    decreases |keys|
  {
    if keys != [] {
      PrecedesIsTotal(key, keys[0]);
      if Precedes(key, keys[0]) {
        forall j | 0 <= j < |keys| ensures Precedes(key, keys[j]) {
          if j > 0 {
            PrecedesIsTransitive(key, keys[0], keys[j]);
          }
        }
      } else {
        InsertSorts(key, keys[1..]);
        var rest := Insert(key, keys[1..]);
        forall j | 0 <= j < |rest| ensures Precedes(keys[0], rest[j]) {
          assert rest[j] in rest;
        }
      }
    }
  }

  /** The final sort of distinct keys. */
  method SortKeys(keys: seq<string>) returns (sorted: seq<string>)
    requires forall i, j :: 0 <= i < j < |keys| ==> keys[i] != keys[j]
    ensures Increasing(sorted) && forall key :: key in sorted <==> key in keys
  {
    sorted := [];
    for i := 0 to |keys|
      invariant Increasing(sorted) && forall key :: key in sorted <==> key in keys[..i]
    {
      InsertSorts(keys[i], sorted);
      sorted := Insert(keys[i], sorted);
      assert keys[..i + 1] == keys[..i] + [keys[i]];
    }
    assert keys[..|keys|] == keys;
  }

  /** The keys of exactly the objects connected to a tagged pod through owner references, in increasing order. */
  method GenerateControllerRelatedList(events: seq<ApiEvent>) returns (r: Option<seq<string>>)
    ensures r.None? <==> exists e :: e in events && e.Incomplete()
    ensures r.Some? ==> forall key :: key in r.value <==> exists e :: e in events && e.key == key && Connected(events, e.Uid())
    ensures r.Some? ==> Increasing(r.value)
  {
    var seeds := TaggedPods(events);
    if seeds.None? {
      return None;
    }
    var tainted := Taint(events, seeds.value);
    var list := RelatedKeys(events, tainted);
    list := SortKeys(list);
    r := Some(list);
  }

  /** A sound, settled set that holds the tagged pods is the set of connected uids. */
  lemma {:induction false} TaintedIsConnected(events: seq<ApiEvent>, tainted: set<Uid>)
    requires forall e :: e in events ==> Settled(e, tainted) && (e.Tagged() ==> e.uid in tainted)
    requires forall u :: u in tainted ==> Connected(events, u)
    ensures forall u :: Connected(events, u) <==> u in tainted
  {
    forall u | Connected(events, u) ensures u in tainted {
      var path :| Chain(events, path) && path[|path| - 1] == u;
      ChainStaysInside(events, tainted, path, |path| - 1);
    }
  }

  // ----- The end state -----

  datatype Change<T> = Unmarked | Set(key: string, value: T) | Deleted(key: string)

  /** The state that the log leaves behind. */
  function Replay<T>(log: seq<Change<T>>): map<string, T> {
    if log == [] then map[]
    else
      var before := Replay(log[..|log| - 1]);
      match log[|log| - 1]
      case Unmarked => before
      case Set(key, value) => before[key := value]
      case Deleted(key) => before - {key}
  }

  /** Reading `log` after a suffix of which `state` and `deleted` are what is left. */
  ghost function Overlay<T>(log: seq<Change<T>>, state: map<string, T>, deleted: set<string>): map<string, T> {
    (Replay(log) - deleted) + state
  }

  /** One more line read backwards: the first change seen of a key wins. */
  lemma {:induction false} OverlayLast<T>(rest: seq<Change<T>>, c: Change<T>, state: map<string, T>, deleted: set<string>,
                                          state': map<string, T>, deleted': set<string>)
    requires state.Keys !! deleted
    requires if c.Unmarked? || c.key in deleted || c.key in state then state' == state && deleted' == deleted
             else if c.Set? then state' == state[c.key := c.value] && deleted' == deleted
             else state' == state && deleted' == deleted + {c.key}
    ensures Overlay(rest + [c], state, deleted) == Overlay(rest, state', deleted')
  {
    assert (rest + [c])[..|rest + [c]| - 1] == rest;
  }

  /** Reading the log backwards, the last change of a key wins: the same state as replaying it forwards. */
  method GenerateState<T>(log: seq<Change<T>>) returns (endState: map<string, T>)
    ensures endState == Replay(log)
  {
    endState := map[];
    var deleted: set<string> := {};
    var i := |log|;
    assert log[..i] == log;
    while i > 0
      invariant 0 <= i <= |log| && endState.Keys !! deleted
      invariant Overlay(log[..i], endState, deleted) == Replay(log)
    {
      ghost var before, gone := endState, deleted;
      i := i - 1;
      if !log[i].Unmarked? && log[i].key !in deleted && log[i].key !in endState {
        if log[i].Deleted? {
          deleted := deleted + {log[i].key};
        } else {
          endState := endState[log[i].key := log[i].value];
        }
      }
      assert log[..i + 1] == log[..i] + [log[i]];
      OverlayLast(log[..i], log[i], before, gone, endState, deleted);
    }
  }
}
