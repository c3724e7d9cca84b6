/** The event graph built from a log, and its sanity check. A result of `false` stands for
    a failed assertion. */
module EventGraph {
  import opened TriggerExpr
  import opened ServerLog
  import opened ReconcilerEvents
  import Windows = ReconcileWindows

  /** An edge from a hear to a write, by their positions in the vertex lists. */
  datatype Edge = Edge(source: nat, sink: nat)

  predicate WriteOk(e: Event) {
    e.Write? && e.start < e.end
    && (e.rid.Some? ==> e.rangeEnd != -1 && e.rangeStart < e.rangeEnd && e.end == e.rangeEnd)
  }

  /** The sequence of writes among the events, in order. */
  function Writes(events: seq<Event>): seq<Event> {
    if events == [] then []
    else Writes(events[..|events| - 1]) + if events[|events| - 1].Write? then [events[|events| - 1]] else []
  }

  function ReadEvents(events: seq<Event>): seq<Event> {
    if events == [] then []
    else ReadEvents(events[..|events| - 1]) + if events[|events| - 1].Read? then [events[|events| - 1]] else []
  }

  /** The writes, and the reads, of one key, in order. */
  function WritesAt(events: seq<Event>, key: string): seq<Event> {
    if events == [] then []
    else
      var last := events[|events| - 1];
      WritesAt(events[..|events| - 1], key) + if last.Write? && last.key == key then [last] else []
  }

  function ReadsAt(events: seq<Event>, key: string): seq<Event> {
    if events == [] then []
    else
      var last := events[|events| - 1];
      ReadsAt(events[..|events| - 1], key) + if last.Read? && key in last.keys then [last] else []
  }

  /** The hears of one key, in order. */
  function HearsAt(list: seq<Hear>, key: string): seq<Hear> {
    if list == [] then []
    else HearsAt(list[..|list| - 1], key) + if list[|list| - 1].key == key then [list[|list| - 1]] else []
  }

  function HearsOf(index: map<string, seq<Hear>>, key: string): seq<Hear> {
    if key in index then index[key] else []
  }

  function Indexed(index: map<string, seq<Hear>>, h: Hear): map<string, seq<Hear>> {
    index[h.key := HearsOf(index, h.key) + [h]]
  }

  ghost predicate IndexesHears(index: map<string, seq<Hear>>, list: seq<Hear>) {
    forall key :: HearsOf(index, key) == HearsAt(list, key)
  }

  ghost predicate HasId(list: seq<Hear>, id: int) {
    exists j :: 0 <= j < |list| && list[j].id == id
  }

  lemma {:induction false} OneMoreId(list: seq<Hear>, i: nat)
    requires i < |list|
    ensures forall id :: HasId(list[..i + 1], id) <==> HasId(list[..i], id) || id == list[i].id
    ensures !HasId(list[..i], list[i].id) <==> forall j :: 0 <= j < i ==> list[j].id != list[i].id
  {
    forall id
      ensures HasId(list[..i + 1], id) <==> HasId(list[..i], id) || id == list[i].id
    {
      if HasId(list[..i], id) {
        var j :| 0 <= j < i && list[..i][j].id == id;
        assert list[..i + 1][j].id == id;
      }
      assert list[..i + 1][i] == list[i];
      if HasId(list[..i + 1], id) {
        var j :| 0 <= j < i + 1 && list[..i + 1][j].id == id;
        assert j < i ==> list[..i][j].id == id;
      }
    }
    assert forall j :: 0 <= j < i ==> list[..i][j] == list[j];
  }

  lemma {:induction false} HearIndexed(index: map<string, seq<Hear>>, list: seq<Hear>, i: nat)
    requires i < |list| && IndexesHears(index, list[..i])
    ensures IndexesHears(Indexed(index, list[i]), list[..i + 1])
  {
    assert list[..i + 1][..i] == list[..i];
    forall key ensures HearsOf(Indexed(index, list[i]), key) == HearsAt(list[..i + 1], key) {
      assert HearsOf(index, key) == HearsAt(list[..i], key);
    }
  }

  function Found(index: map<string, seq<Event>>, key: string): seq<Event> {
    if key in index then index[key] else []
  }

  function Append(index: map<string, seq<Event>>, key: string, e: Event): map<string, seq<Event>> {
    index[key := Found(index, key) + [e]]
  }

  class Graph {
    var hears: seq<Hear>
    var hearById: map<int, nat>
    var hearsByKey: map<string, seq<Hear>>
    var writes: seq<Event>
    var writesByKey: map<string, seq<Event>>
    var readVertices: seq<Event>
    var readsByKey: map<string, seq<Event>>
    var edges: seq<Edge>
    /** Between neighbouring reconciler events, by their positions in the sorted list. */
    var intraReconcilerEdges: seq<Edge>

    constructor ()
      ensures hears == [] && hearById == map[] && writes == [] && readVertices == [] && edges == []
      ensures hearsByKey == map[] && writesByKey == map[] && readsByKey == map[] && intraReconcilerEdges == []
    {
      hears, hearById, writes, readVertices, edges := [], map[], [], [], [];
      hearsByKey, writesByKey, readsByKey, intraReconcilerEdges := map[], map[], map[], [];
    }

    /** The vertices in order and their index by key; false for the assertion that no id comes twice. */
    method AddSortedControllerHears(list: seq<Hear>) returns (ok: bool)
      requires hears == [] && hearById == map[] && hearsByKey == map[]
      modifies `hears, `hearById, `hearsByKey
      ensures ok <==> forall j, k :: 0 <= j < k < |list| ==> list[j].id != list[k].id
      ensures ok ==> hears == list && IndexesHears(hearsByKey, list)
    {
      for i := 0 to |list|
        invariant hears == list[..i] && IndexesHears(hearsByKey, list[..i])
        invariant forall id :: id in hearById <==> HasId(list[..i], id)
        invariant forall j, k :: 0 <= j < k < i ==> list[j].id != list[k].id
      {
        HearIndexed(hearsByKey, list, i);
        OneMoreId(list, i);
        hears := hears + [list[i]];
        hearsByKey := Indexed(hearsByKey, list[i]);
        if list[i].id in hearById {
          return false;
        }
        hearById := hearById[list[i].id := i];
      }
      assert list[..|list|] == list;
      ok := true;
    }

    /** The vertices in order, their indexes by key, and a chain of edges through all of them. */
    method AddSortedReconcilerEvents(list: seq<Event>)
      requires writes == [] && readVertices == [] && writesByKey == map[] && readsByKey == map[]
      requires intraReconcilerEdges == []
      modifies `writes, `readVertices, `writesByKey, `readsByKey, `intraReconcilerEdges
      ensures Holds(list)
      ensures |intraReconcilerEdges| == (if list == [] then 0 else |list| - 1)
      ensures forall i :: 0 <= i < |intraReconcilerEdges| ==> intraReconcilerEdges[i] == Edge(i, i + 1)
    {
      for i := 0 to |list|
        invariant Holds(list[..i]) && intraReconcilerEdges == []
      {
        assert list[..i + 1][..i] == list[..i];
        AddVertex(list[i], list[..i + 1]);
      }
      assert list[..|list|] == list;
      if list != [] {
        for i := 1 to |list|
          invariant Holds(list) && |intraReconcilerEdges| == i - 1
          invariant forall k :: 0 <= k < i - 1 ==> intraReconcilerEdges[k] == Edge(k, k + 1)
        {
          intraReconcilerEdges := intraReconcilerEdges + [Edge(i - 1, i)];
        }
      }
    }

    /** The vertices and indexes are those of the events. */
    ghost predicate Holds(events: seq<Event>)
      reads `writes, `readVertices, `writesByKey, `readsByKey
    {
      writes == Writes(events) && readVertices == ReadEvents(events)
      && forall key :: Found(writesByKey, key) == WritesAt(events, key) && Found(readsByKey, key) == ReadsAt(events, key)
    }

    method AddVertex(e: Event, ghost events: seq<Event>)
      requires events != [] && events[|events| - 1] == e && Holds(events[..|events| - 1])
      modifies `writes, `readVertices, `writesByKey, `readsByKey
      ensures Holds(events)
    {
      if e.Write? {
        writes := writes + [e];
        writesByKey := Append(writesByKey, e.key, e);
      } else if e.Read? {
        readVertices := readVertices + [e];
        IndexRead(e);
      }
    }

    /** Enters a read under each of its keys. */
    method IndexRead(e: Event)
      requires e.Read?
      modifies `readsByKey
      ensures forall key :: Found(readsByKey, key) == Found(old(readsByKey), key) + if key in e.keys then [e] else []
    {
      var pending := e.keys;
      while pending != {}
        invariant pending <= e.keys
        invariant forall key :: Found(readsByKey, key) == Found(old(readsByKey), key) + if key in e.keys - pending then [e] else []
        decreases |pending|
      {
        var key :| key in pending;
        readsByKey := Append(readsByKey, key, e);
        pending := pending - {key};
      }
    }

    /** All pairs of a hear and a write that the two passes keep. */
    method GenerateHearWritePairs() returns (pairs: seq<Edge>)
      ensures forall e :: e in pairs <==>
        e.source < |hears| && e.sink < |writes|
        && Related(hears[e.source], writes[e.sink]) && ReadOverlaps(hears[e.source], writes[e.sink])
    {
      var related: seq<Edge> := [];
      for w := 0 to |writes|
        invariant forall e :: e in related <==> e.source < |hears| && e.sink < w && Related(hears[e.source], writes[e.sink])
      {
        for h := 0 to |hears|
          invariant forall e :: e in related <==>
            e.source < |hears| && (e.sink < w || (e.sink == w && e.source < h)) && Related(hears[e.source], writes[e.sink])
        {
          if Related(hears[h], writes[w]) {
            related := related + [Edge(h, w)];
          }
        }
      }
      pairs := [];
      for i := 0 to |related|
        invariant forall e :: e in pairs <==> e in related[..i] && ReadOverlaps(hears[e.source], writes[e.sink])
      {
        if ReadOverlaps(hears[related[i].source], writes[related[i].sink]) {
          pairs := pairs + [related[i]];
        }
      }
      assert related[..|related|] == related;
    }

    method ConnectHearToWrite(e: Edge) returns (ok: bool)
      requires e.source < |hears| && e.sink < |writes|
      modifies `edges
      ensures ok <==> hears[e.source].start < At(writes[e.sink])
      ensures ok ==> edges == old(edges) + [e]
    {
      if hears[e.source].start >= At(writes[e.sink]) {
        return false;
      }
      edges := edges + [e];
      ok := true;
    }

    ghost predicate Sane()
      reads this
    {
      (forall i :: 0 <= i < |hears| ==> hears[i].start < hears[i].end)
      && (forall i, j :: 0 <= i < j < |hears| ==> hears[i].start < hears[j].start)
      && (forall i :: 0 <= i < |writes| ==> WriteOk(writes[i]))
      && (forall i, j :: 0 <= i < j < |writes| ==> At(writes[i]) < At(writes[j]))
      && (forall e :: e in edges ==> e.source < |hears| && e.sink < |writes| && hears[e.source].start < At(writes[e.sink]))
    }

    /** `sanity_check`: neighbours are compared. */
    method SanityCheck() returns (ok: bool)
      requires forall e :: e in edges ==> e.source < |hears| && e.sink < |writes|
      requires forall i :: 0 <= i < |writes| ==> writes[i].Write?
      ensures ok <==> Sane()
    {
      for i := 0 to |hears|
        invariant forall j :: 0 <= j < i ==> hears[j].start < hears[j].end
        invariant forall j, k :: 0 <= j < k < i ==> hears[j].start < hears[k].start
      {
        if (i > 0 && hears[i].start <= hears[i - 1].start) || hears[i].start >= hears[i].end {
          return false;
        }
      }
      for i := 0 to |writes|
        invariant forall j :: 0 <= j < i ==> WriteOk(writes[j])
        invariant forall j, k :: 0 <= j < k < i ==> At(writes[j]) < At(writes[k])
      {
        if (i > 0 && writes[i].start <= writes[i - 1].start) || !WriteOk(writes[i]) {
          return false;
        }
      }
      for i := 0 to |edges|
        invariant forall j :: 0 <= j < i ==> hears[edges[j].source].start < At(writes[edges[j].sink])
      {
        assert edges[i] in edges;
        if hears[edges[i].source].start >= At(writes[edges[i].sink]) {
          return false;
        }
      }
      ok := true;
    }

    /** The read from which `compute_event_diff` takes the object before a write: a pass over the reads of the written
        key that stops at the first one after the write. False for the assertion that no read coincides with the write. */
    method ReadBeforeWrite(w: Event) returns (ok: bool, prev: Option<Event>)
      requires w.Write? && Ordered(Found(readsByKey, w.key))
      ensures ok <==> forall r :: r in Found(readsByKey, w.key) ==> At(r) != At(w)
      ensures ok ==> LatestRead(Found(readsByKey, w.key), w, prev)
    {
      var list := Found(readsByKey, w.key);
      prev := None;
      for i := 0 to |list|
        invariant forall k :: 0 <= k < i ==> At(list[k]) < At(w)
        invariant LatestRead(list[..i], w, prev)
      {
        assert list[..i + 1] == list[..i] + [list[i]];
        if At(list[i]) > At(w) {
          StopIsSafe(list, i, w, prev);
          return true, prev;
        }
        if At(list[i]) == At(w) {
          return false, prev;
        }
        if SameReconcile(list[i], w) {
          prev := Some(list[i]);
        }
      }
      assert list[..|list|] == list;
      ok := true;
    }

    /** The assertions on the reads of every write. */
    method CheckReads() returns (ok: bool)
      requires forall i :: 0 <= i < |writes| ==> writes[i].Write?
      requires forall key :: Ordered(Found(readsByKey, key))
      ensures ok <==> forall i, r :: 0 <= i < |writes| && r in Found(readsByKey, writes[i].key) ==> At(r) != At(writes[i])
    {
      for i := 0 to |writes|
        invariant forall k, r :: 0 <= k < i && r in Found(readsByKey, writes[k].key) ==> At(r) != At(writes[k])
      {
        var prev;
        ok, prev := ReadBeforeWrite(writes[i]);
        if !ok {
          return;
        }
      }
      ok := true;
    }
  }

  /** Reads by increasing line number. */
  predicate Ordered(list: seq<Event>) {
    (forall j :: 0 <= j < |list| ==> list[j].Read?)
    && forall j, k :: 0 <= j < k < |list| ==> At(list[j]) < At(list[k])
  }

  predicate SameReconcile(r: Event, w: Event) {
    r.Read? && w.Write? && r.fun == w.fun && r.rid == w.rid
  }

  /** The latest read before the write in its own reconcile, if there is one. */
  ghost predicate LatestRead(list: seq<Event>, w: Event, prev: Option<Event>) {
    (prev.Some? ==> prev.value in list && SameReconcile(prev.value, w) && At(prev.value) < At(w))
    && forall r :: r in list && SameReconcile(r, w) && At(r) < At(w) ==> prev.Some? && At(r) <= At(prev.value)
  }

  lemma {:induction false} StopIsSafe(list: seq<Event>, i: nat, w: Event, prev: Option<Event>)
    requires Ordered(list) && i < |list| && At(list[i]) > At(w) && LatestRead(list[..i], w, prev)
    requires forall k :: 0 <= k < i ==> At(list[k]) < At(w)
    ensures LatestRead(list, w, prev) && forall r :: r in list ==> At(r) != At(w)
  {
    forall r | r in list ensures At(r) != At(w) && (At(r) < At(w) ==> r in list[..i]) {
      var k :| 0 <= k < |list| && list[k] == r;
      assert k < i ==> list[..i][k] == r;
    }
  }

  // ----- Soundness -----

  lemma {:induction false} FilteredMembers(events: seq<Event>)
    ensures forall j :: 0 <= j < |Writes(events)| ==> Writes(events)[j] in events && Writes(events)[j].Write?
    ensures forall j :: 0 <= j < |ReadEvents(events)| ==> ReadEvents(events)[j] in events && ReadEvents(events)[j].Read?
    ensures forall j :: 0 <= j < |events| && events[j].Write? ==> events[j] in Writes(events)
  {
    if events != [] {
      var before := events[..|events| - 1];
      FilteredMembers(before);
      assert events == before + [events[|events| - 1]];
    }
  }

  /** The reads of a key are ordered as the events are. */
  lemma {:induction false} ReadsIncrease(events: seq<Event>, key: string)
    requires forall j, k :: 0 <= j < k < |events| ==> At(events[j]) < At(events[k])
    ensures Ordered(ReadsAt(events, key)) && forall r :: r in ReadsAt(events, key) ==> r in events && r.Read?
  {
    if events != [] {
      var before, last := events[..|events| - 1], events[|events| - 1];
      ReadsIncrease(before, key);
      forall r | r in ReadsAt(before, key) ensures r in events && At(r) < At(last) {
        var i :| 0 <= i < |before| && before[i] == r;
        assert events[i] == r;
      }
      assert last in events;
    }
  }

  lemma {:induction false} WritesIncrease(events: seq<Event>)
    requires forall j, k :: 0 <= j < k < |events| ==> At(events[j]) < At(events[k])
    ensures forall j, k :: 0 <= j < k < |Writes(events)| ==> At(Writes(events)[j]) < At(Writes(events)[k])
  {
    if events != [] {
      var before, last := events[..|events| - 1], events[|events| - 1];
      WritesIncrease(before);
      FilteredMembers(before);
      forall j | 0 <= j < |Writes(before)|
        ensures At(Writes(before)[j]) < At(last)
      {
        var i :| 0 <= i < |before| && before[i] == Writes(before)[j];
        assert At(events[i]) < At(last);
      }
    }
  }

  /** The events of an accepted log, sorted, give sane write vertices that coincide with no read. */
  lemma {:induction false} EventsGiveSaneWrites(c: Config, log: Log, list: seq<Event>)
    requires Accepted(log) && ParseLog(c, log, |log|).Some? && IsSorted(ParseLog(c, log, |log|).value.events, list)
    ensures forall j :: 0 <= j < |Writes(list)| ==> WriteOk(Writes(list)[j])
    ensures forall j, k :: 0 <= j < k < |Writes(list)| ==> At(Writes(list)[j]) < At(Writes(list)[k])
    ensures forall w, r :: w in Writes(list) && r in list && r.Read? ==> At(r) != At(w)
  {
    ParseSound(c, log, |log|);
    FilteredMembers(list);
    WritesIncrease(list);
    var events := ParseLog(c, log, |log|).value.events;
    forall j | 0 <= j < |list| ensures EventMatches(log, |log|, At(list[j]), list[j]) {
      assert events[At(list[j])] == list[j];
    }
    forall w, r | w in Writes(list) && r in list && r.Read? ensures At(r) != At(w) {
      assert events[At(w)] == w && events[At(r)] == r;
    }
  }

  /** The vertices carry what the sanity check of the graph will assert. */
  ghost predicate VerticesAreSane(hears: seq<Hear>, writes: seq<Event>, readsByKey: map<string, seq<Event>>) {
    (forall i :: 0 <= i < |hears| ==> hears[i].start < hears[i].end)
    && (forall i, j :: 0 <= i < j < |hears| ==> hears[i].start < hears[j].start)
    && (forall i :: 0 <= i < |writes| ==> WriteOk(writes[i]))
    && (forall i, j :: 0 <= i < j < |writes| ==> At(writes[i]) < At(writes[j]))
    && (forall i, r :: 0 <= i < |writes| && r in Found(readsByKey, writes[i].key) ==> At(r) != At(writes[i]))
  }

  ghost predicate EdgesAreRelated(hears: seq<Hear>, writes: seq<Event>, edges: seq<Edge>) {
    forall e :: e in edges <==>
      e.source < |hears| && e.sink < |writes|
      && Related(hears[e.source], writes[e.sink]) && ReadOverlaps(hears[e.source], writes[e.sink])
  }

  // ----- What the edges say about the log -----

  /** The cache read at the line brought the reconcile what the hear is about. */
  predicate ReadsFrom(log: Log, i: nat, h: Hear)
    requires i < |log| && log[i].CacheRead?
  {
    if log[i].isGet then h.key in log[i].keys else h.rtype == log[i].rtype
  }

  /** The hear may have caused the write: it started before the write did, it was not over before the last begin but one
      of the write's reconciler, and what it is about was read since the last line at which no reconcile was open. */
  ghost predicate MayCause(c: Config, log: Log, h: Hear, w: Event)
    requires w.Write?
  {
    h.start < w.start
    && (exists start :: Windows.OpensAt(c.compressTrivial, log, w.end, w.fun, start) && start < h.end)
    && exists i :: Windows.Collected(log, w.end, i) && ReadsFrom(log, i, h)
  }

  lemma {:induction false} WindowIsUnique(compress: bool, log: Log, n: int, fun: string, a: int, b: int)
    requires Windows.OpensAt(compress, log, n, fun, a) && Windows.OpensAt(compress, log, n, fun, b)
    ensures a == b
  {
    var x :| Windows.LatestBegin(compress, log, n, fun, x) && Windows.BeginBefore(compress, log, x, fun, a);
    var y :| Windows.LatestBegin(compress, log, n, fun, y) && Windows.BeginBefore(compress, log, y, fun, b);
    assert x == y;
  }

  lemma {:induction false} WindowIsBegun(compress: bool, log: Log, n: int, fun: string, start: int)
    requires Windows.OpensAt(compress, log, n, fun, start)
    ensures Windows.Begun(log, n, fun)
  {
    var cur :| Windows.LatestBegin(compress, log, n, fun, cur) && Windows.BeginBefore(compress, log, cur, fun, start);
    assert cur < n && Windows.BeginsAt(log, cur, fun);
  }

  /** The two passes keep exactly the pairs of which the log says so. */
  lemma {:induction false} RelatedIff(c: Config, log: Log, h: Hear, w: Event)
    requires w.Write? && Describes(c, log, w)
    ensures Related(h, w) && ReadOverlaps(h, w) <==> MayCause(c, log, h, w)
  {
    if start :| Windows.OpensAt(c.compressTrivial, log, w.end, w.fun, start) && start < h.end {
      WindowIsBegun(c.compressTrivial, log, w.end, w.fun, start);
      WindowIsUnique(c.compressTrivial, log, w.end, w.fun, start, w.rangeStart);
    }
    OverlapIff(log, h, w);
  }

  lemma {:induction false} OverlapIff(log: Log, h: Hear, w: Event)
    requires w.Write? && Windows.ReadKeysAre(log, w.end, w.readKeys) && Windows.ReadTypesAre(log, w.end, w.readTypes)
    ensures ReadOverlaps(h, w) <==> exists i :: Windows.Collected(log, w.end, i) && ReadsFrom(log, i, h)
  {
    if h.key in w.readKeys {
      var i :| Windows.Collected(log, w.end, i) && log[i].isGet && h.key in log[i].keys;
      assert ReadsFrom(log, i, h);
    } else if h.rtype in w.readTypes {
      var i :| Windows.Collected(log, w.end, i) && !log[i].isGet && log[i].rtype == h.rtype;
      assert ReadsFrom(log, i, h);
    }
  }

  /** The write vertices are the writes of the log, each with what the log says about it. */
  ghost predicate WritesTell(c: Config, log: Log, writes: seq<Event>) {
    (forall j :: 0 <= j < |writes| ==> writes[j].Write? && Describes(c, log, writes[j]))
    && (forall j, k :: 0 <= j < k < |writes| ==> At(writes[j]) < At(writes[k]))
    && forall i: nat :: Enters(c, log, i) && log[i].AfterWrite? ==> Told(writes, i)
  }

  ghost predicate EdgesTell(c: Config, log: Log, hears: seq<Hear>, writes: seq<Event>, edges: seq<Edge>)
    requires forall j :: 0 <= j < |writes| ==> writes[j].Write?
  {
    forall e :: e in edges <==>
      e.source < |hears| && e.sink < |writes| && MayCause(c, log, hears[e.source], writes[e.sink])
  }

  lemma {:induction false} AccountGivesWrites(c: Config, log: Log, list: seq<Event>)
    requires IsAccount(c, log, list)
    ensures WritesTell(c, log, Writes(list))
  {
    FilteredMembers(list);
    WritesIncrease(list);
    forall i: nat | Enters(c, log, i) && log[i].AfterWrite? ensures Told(Writes(list), i) {
      assert Told(list, i);
      WriteIsTold(c, log, list, i);
    }
  }

  lemma {:induction false} WriteIsTold(c: Config, log: Log, list: seq<Event>, i: nat)
    requires Told(list, i) && i < |log| && log[i].AfterWrite?
    requires forall j :: 0 <= j < |list| ==> Describes(c, log, list[j])
    ensures Told(Writes(list), i)
  {
    var j :| 0 <= j < |list| && EntryLine(list[j]) == i;
    EntersWrite(c, log, list[j]);
    FilteredMembers(list);
    var k :| 0 <= k < |Writes(list)| && Writes(list)[k] == list[j];
  }

  lemma {:induction false} EntersWrite(c: Config, log: Log, e: Event)
    requires Describes(c, log, e) && log[EntryLine(e)].AfterWrite?
    ensures e.Write?
  {
  }

  lemma {:induction false} RelatedTells(c: Config, log: Log, hears: seq<Hear>, writes: seq<Event>, edges: seq<Edge>)
    requires WritesTell(c, log, writes) && EdgesAreRelated(hears, writes, edges)
    ensures EdgesTell(c, log, hears, writes, edges)
  {
    forall e: Edge | e.source < |hears| && e.sink < |writes|
      ensures Related(hears[e.source], writes[e.sink]) && ReadOverlaps(hears[e.source], writes[e.sink])
              <==> MayCause(c, log, hears[e.source], writes[e.sink])
    {
      RelatedIff(c, log, hears[e.source], writes[e.sink]);
    }
  }

  /** Generates the pairs, connects them and runs the checks. */
  method ConnectAndCheck(g: Graph) returns (ok: bool)
    requires g.edges == []
    requires forall i :: 0 <= i < |g.writes| ==> g.writes[i].Write?
    requires forall key :: Ordered(Found(g.readsByKey, key))
    modifies g`edges
    ensures EdgesAreRelated(g.hears, g.writes, g.edges)
    ensures VerticesAreSane(g.hears, g.writes, g.readsByKey) ==> ok
    ensures ok ==> g.Sane()
  {
    var pairs := g.GenerateHearWritePairs();
    for i := 0 to |pairs|
      invariant g.edges == pairs[..i]
    {
      assert pairs[i] in pairs;
      ok := g.ConnectHearToWrite(pairs[i]);
    }
    assert g.edges == pairs;
    ok := g.CheckReads();
    if ok {
      ok := g.SanityCheck();
    }
  }

  lemma {:induction false} IndexedReads(g: Graph, events: seq<Event>)
    requires g.Holds(events) && forall j, k :: 0 <= j < k < |events| ==> At(events[j]) < At(events[k])
    ensures forall key :: Ordered(Found(g.readsByKey, key))
    ensures forall key, r :: r in Found(g.readsByKey, key) ==> r in events && r.Read?
  {
    forall key
      ensures Ordered(Found(g.readsByKey, key)) && forall r :: r in Found(g.readsByKey, key) ==> r in events && r.Read?
    {
      ReadsIncrease(events, key);
    }
  }

  /** Every log accepted by the sanity check of the server log is parsed, and its graph built, connected and checked,
      without a failed lookup or assertion; the graph has one vertex per hear and per write of the log. */
  method BuildControllerEventGraph(c: Config, log: Log) returns (g: Graph, ok: bool)
    ensures fresh(g)
    ensures Accepted(log) ==> ok && HearsUpTo(log, |log|, g.hears) && Ended(log, g.hears)
    ensures Accepted(log) ==> WritesTell(c, log, g.writes) && EdgesTell(c, log, g.hears, g.writes, g.edges)
    ensures ok ==> g.Sane() && EdgesAreRelated(g.hears, g.writes, g.edges)
  {
    g := new Graph();
    var hears := ParseReceiverEvents(log);
    var events := ParseReconcilerEvents(c, log);
    if hears.None? || events.None? {
      return g, false;
    }
    ok := g.AddSortedControllerHears(hears.value);
    if !ok {
      return;
    }
    g.AddSortedReconcilerEvents(events.value);
    FilteredMembers(events.value);
    IndexedReads(g, events.value);
    if Accepted(log) {
      EventsGiveSaneWrites(c, log, events.value);
      AccountGivesWrites(c, log, events.value);
      assert VerticesAreSane(g.hears, g.writes, g.readsByKey) by {
        assert forall i :: 0 <= i < |g.hears| ==> HearMatches(log, g.hears[i]);
      }
    }
    ok := ConnectAndCheck(g);
    if Accepted(log) {
      RelatedTells(c, log, g.hears, g.writes, g.edges);
    }
  }
}
