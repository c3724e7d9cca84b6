/** The difference and canonicalisation routines as loops, in the two implementations: one
    works on canonicalised copies, the other canonicalises its arguments in place and marks them. */
module EventDelta {
  import opened JsonDelta
  import opened DiffExact
  import opened Places
  import opened TriggerExpr

  type Fields = map<string, Json>

  /** The result of a map difference; None is the pair of nils. */
  function MapDelta(prev: Fields, cur: Fields): Option<(Fields, Fields)> {
    var p, c := DiffPrevMap(prev, cur), DiffCurMap(prev, cur);
    if p == map[] && c == map[] then None else Some((p, c))
  }

  function ListDelta(prev: seq<Json>, cur: seq<Json>): Option<(seq<Json>, seq<Json>)> {
    var p, c := DiffPrevList(prev, cur), DiffCurList(prev, cur);
    if |prev| == |cur| && AllSkipped(p) && AllSkipped(c) then None else Some((p, c))
  }

  // ----- Loops -----

  /** The difference of two values found under the same key or index. */
  method DiffValue(prev: Json, cur: Json) returns (d: Delta)
    ensures d == Diff(prev, cur)
    decreases cur, 1
  {
    d := Same;
    if cur.Obj? {
      if !prev.Obj? {
        d := Changed(prev, cur);
      } else {
        var sub := DiffEventAsMap(prev.fields, cur.fields);
        if sub.Some? {
          d := Changed(Obj(sub.value.0), Obj(sub.value.1));
        }
      }
    } else if cur.Arr? {
      if !prev.Arr? {
        d := Changed(prev, cur);
      } else {
        var sub := DiffEventAsList(prev.items, cur.items);
        if sub.Some? {
          d := Changed(Arr(sub.value.0), Arr(sub.value.1));
        }
      }
    } else if prev != cur {
      d := Changed(prev, cur);
    }
  }

  /** Nothing, for equal maps, or the minimal parts in which they differ. */
  predicate Differ(prev: Fields, cur: Fields, r: Option<(Fields, Fields)>) {
    match r
    case None => prev == cur
    case Some(d) => IsDifference(Obj(prev), Obj(cur), Obj(d.0), Obj(d.1))
  }

  lemma {:induction false} MapDeltaIff(prev: Fields, cur: Fields, r: Option<(Fields, Fields)>)
    ensures r == MapDelta(prev, cur) <==> Differ(prev, cur, r)
  {
    MapDeltaIsDiff(prev, cur);
    SameIffEqual(Obj(prev), Obj(cur));
    DiffIsDifference(Obj(prev), Obj(cur));
    if r.Some? {
      DiffIff(Obj(prev), Obj(cur), Obj(r.value.0), Obj(r.value.1));
    }
  }

  method DiffEventAsMap(prev: Fields, cur: Fields) returns (r: Option<(Fields, Fields)>)
    ensures r == MapDelta(prev, cur) && Differ(prev, cur, r)
    decreases Obj(cur), 0
  {
    var commonPrev, commonCur := DiffCommonKeys(prev, cur);
    var diffPrev := CopyMissing(prev, cur.Keys, commonPrev);
    var diffCur := CopyMissing(cur, prev.Keys, commonCur);
    JoinPrev(prev, cur, commonPrev, commonCur, diffPrev);
    JoinCur(prev, cur, commonPrev, commonCur, diffCur);
    r := if |diffCur| == 0 && |diffPrev| == 0 then None else Some((diffPrev, diffCur));
    MapDeltaIff(prev, cur, r);
  }

  method DiffCommonKeys(prev: Fields, cur: Fields) returns (diffPrev: Fields, diffCur: Fields)
    ensures CommonDelta(prev, cur, prev.Keys * cur.Keys, diffPrev, diffCur)
    decreases Obj(cur), 0, 0
  {
    diffPrev, diffCur := map[], map[];
    var common := prev.Keys * cur.Keys;
    while common != {}
      invariant common <= prev.Keys * cur.Keys
      invariant CommonDelta(prev, cur, prev.Keys * cur.Keys - common, diffPrev, diffCur)
      decreases common
    {
      var key :| key in common;
      var d := DiffValue(prev[key], cur[key]);
      if d.Changed? {
        diffPrev, diffCur := diffPrev[key := d.prev], diffCur[key := d.cur];
      }
      common := common - {key};
    }
  }

  /** The differences of the values under the given common keys. */
  ghost predicate CommonDelta(prev: Fields, cur: Fields, keys: set<string>, diffPrev: Fields, diffCur: Fields) {
    diffPrev.Keys == diffCur.Keys <= keys * prev.Keys * cur.Keys
    && forall k :: k in keys && k in prev && k in cur ==>
         if k in diffPrev then Diff(prev[k], cur[k]) == Changed(diffPrev[k], diffCur[k]) else Diff(prev[k], cur[k]).Same?
  }

  /** `into` together with the fields whose key the other object does not have. */
  ghost predicate WithMissing(from: Fields, otherKeys: set<string>, into: Fields, r: Fields) {
    r.Keys == into.Keys + (from.Keys - otherKeys)
    && forall k :: k in r ==> r[k] == if k in from && k !in otherKeys then from[k] else into[k]
  }

  lemma {:induction false} JoinPrev(prev: Fields, cur: Fields, a: Fields, b: Fields, r: Fields)
    requires CommonDelta(prev, cur, prev.Keys * cur.Keys, a, b) && WithMissing(prev, cur.Keys, a, r)
    ensures r == DiffPrevMap(prev, cur)
  {
    forall k
      ensures k in r <==> k in DiffPrevMap(prev, cur)
      ensures k in r ==> r[k] == DiffPrevMap(prev, cur)[k]
    {
    }
  }

  lemma {:induction false} JoinCur(prev: Fields, cur: Fields, a: Fields, b: Fields, r: Fields)
    requires CommonDelta(prev, cur, prev.Keys * cur.Keys, a, b) && WithMissing(cur, prev.Keys, b, r)
    ensures r == DiffCurMap(prev, cur)
  {
    forall k
      ensures k in r <==> k in DiffCurMap(prev, cur)
      ensures k in r ==> r[k] == DiffCurMap(prev, cur)[k]
    {
    }
  }

  method CopyMissing(from: Fields, otherKeys: set<string>, into: Fields) returns (r: Fields)
    ensures WithMissing(from, otherKeys, into, r)
  {
    r := into;
    var keys := from.Keys - otherKeys;
    while keys != {}
      invariant keys <= from.Keys - otherKeys
      invariant WithMissing(from, otherKeys + keys, into, r)
      decreases keys
    {
      var key :| key in keys;
      r := r[key := from[key]];
      keys := keys - {key};
    }
    assert otherKeys + {} == otherKeys;
  }

  method DiffEventAsList(prev: seq<Json>, cur: seq<Json>) returns (r: Option<(seq<Json>, seq<Json>)>)
    ensures r == ListDelta(prev, cur)
    decreases Arr(cur), 0
  {
    var minLen := if |prev| > |cur| then |cur| else |prev|;
    var diffPrev := seq(|prev|, i => IDX_SKIP);
    var diffCur := seq(|cur|, i => IDX_SKIP);
    for i := 0 to minLen
      invariant |diffPrev| == |prev| && |diffCur| == |cur|
      invariant forall k :: 0 <= k < i ==> diffPrev[k] == PrevItem(Diff(prev[k], cur[k])) && diffCur[k] == CurItem(Diff(prev[k], cur[k]))
      invariant forall k :: i <= k < |prev| ==> diffPrev[k] == IDX_SKIP
      invariant forall k :: i <= k < |cur| ==> diffCur[k] == IDX_SKIP
    {
      assert cur[i] < Arr(cur);
      var d := DiffValue(prev[i], cur[i]);
      if d.Changed? {
        diffPrev, diffCur := diffPrev[i := d.prev], diffCur[i := d.cur];
      }
    }
    diffPrev := diffPrev[..minLen] + prev[minLen..];
    diffCur := diffCur[..minLen] + cur[minLen..];
    assert diffPrev == DiffPrevList(prev, cur);
    assert diffCur == DiffCurList(prev, cur);
    if |prev| == |cur| {
      var keep := false;
      for i := 0 to |cur|
        invariant !keep <==> forall k :: 0 <= k < i ==> diffPrev[k] == IDX_SKIP && diffCur[k] == IDX_SKIP
      {
        if diffPrev[i] != IDX_SKIP || diffCur[i] != IDX_SKIP {
          keep := true;
        }
      }
      if !keep {
        return None;
      }
    }
    r := Some((diffPrev, diffCur));
  }

  method CanonicalizeValue(j: Json, path: seq<string>, m: Mask) returns (r: Json)
    ensures r == Canon(j, path, m)
    decreases j, 1
  {
    match j
    case Obj(fields) =>
      var f := CanonicalizeEventAsMap(fields, path, m);
      r := Obj(f);
    case Arr(items) =>
      var s := CanonicalizeEventAsList(items, path, m);
      r := Arr(s);
    case Str(t) =>
      r := if m.matches(t) then VALUE_MASK else j;
    case Scalar(_) =>
      r := j;
  }

  method CanonicalizeEventAsMap(event: Fields, path: seq<string>, m: Mask) returns (r: Fields)
    ensures r == CanonMap(event, path, m) && IsCanonical(m, path, Obj(event), Obj(r))
    ensures ValidMask(m) ==> forall at :: Unmatched(m, Obj(r), at)
    decreases Obj(event), 0
  {
    r := event;
    var keys := event.Keys;
    while keys != {}
      invariant keys <= event.Keys == r.Keys
      invariant forall k :: k in event ==> r[k] == if k in keys then event[k] else CanonMap(event, path, m)[k]
      decreases keys
    {
      var key :| key in keys;
      if KeyMasked(m, path, key) {
        r := r[key := VALUE_MASK];
      } else {
        var v := CanonicalizeValue(event[key], path + [key], m);
        r := r[key := v];
      }
      keys := keys - {key};
    }
    CanonicalResult(Obj(event), path, m, Obj(r));
  }

  lemma {:induction false} CanonicalResult(j: Json, path: seq<string>, m: Mask, r: Json)
    requires r == Canon(j, path, m)
    ensures IsCanonical(m, path, j, r)
    ensures ValidMask(m) ==> forall at :: Unmatched(m, r, at)
  {
    CanonIff(j, path, m, r);
    if ValidMask(m) {
      NothingMatches(j, path, m);
    }
  }

  method CanonicalizeEventAsList(event: seq<Json>, path: seq<string>, m: Mask) returns (r: seq<Json>)
    ensures r == CanonList(event, path, m) && IsCanonical(m, path, Arr(event), Arr(r))
    ensures ValidMask(m) ==> forall at :: Unmatched(m, Arr(r), at)
    decreases Arr(event), 0
  {
    r := event;
    for i := 0 to |event|
      invariant |r| == |event|
      invariant forall k :: 0 <= k < i ==> r[k] == CanonList(event, path, m)[k]
      invariant forall k :: i <= k < |event| ==> r[k] == event[k]
    {
      if ItemMasked(m, path) {
        r := r[i := VALUE_MASK];
      } else {
        assert event[i] < Arr(event);
        var v := CanonicalizeValue(event[i], path + ["*"], m);
        r := r[i := v];
      }
    }
    CanonicalResult(Arr(event), path, m, Arr(r));
  }

  // ----- The implementation on copies -----

  function Canonical(event: Fields, m: Mask): Fields {
    CanonMap(event, [], m)
  }

  /** The learner's difference of two events. */
  function LearnedDiff(prev: Fields, cur: Fields, m: Mask): Option<(Fields, Fields)> {
    MapDelta(Canonical(prev, m), Canonical(cur, m))
  }

  /** What `diff_event` compares, depending on its two flags. */
  function Prepared(event: Fields, m: Mask, trim: bool, can: bool): Fields {
    var e := if trim then event - {"kind", "apiVersion"} else event;
    if can then Canonical(e, m) else e
  }

  method DiffEvent(prev: Fields, cur: Fields, m: Mask, trim: bool, can: bool) returns (r: Option<(Fields, Fields)>)
    ensures r == MapDelta(Prepared(prev, m, trim, can), Prepared(cur, m, trim, can))
  {
    var p, c := prev, cur;
    if trim {
      p, c := p - {"kind", "apiVersion"}, c - {"kind", "apiVersion"};
    }
    if can {
      p := CanonicalizeEventAsMap(p, [], m);
      c := CanonicalizeEventAsMap(c, [], m);
    }
    r := DiffEventAsMap(p, c);
  }

  /** The payload of an earlier event conflicts with a later object. */
  predicate ConflictingPayload(small: Option<Fields>, large: Fields, m: Mask) {
    small.Some? && !PartOf(Obj(small.value), Obj(Canonical(large, m)))
  }

  function CurHalf(d: Option<(Fields, Fields)>): Option<Fields> {
    if d.None? then None else Some(d.value.1)
  }

  lemma {:induction false} MapDeltaIsDiff(prev: Fields, cur: Fields)
    ensures Diff(Obj(prev), Obj(cur)) ==
            match MapDelta(prev, cur) case None => Same case Some(d) => Changed(Obj(d.0), Obj(d.1))
  {
  }

  /** An event is never in payload conflict with an object of the same canonical form. */
  lemma {:induction false} NoConflictWithSameForm(prev: Fields, cur: Fields, later: Fields, m: Mask)
    requires Canonical(later, m) == Canonical(cur, m)
    ensures !ConflictingPayload(CurHalf(LearnedDiff(prev, cur, m)), later, m)
  {
    MapDeltaIsDiff(Canonical(prev, m), Canonical(cur, m));
    HalvesArePartOf(Obj(Canonical(prev, m)), Obj(Canonical(cur, m)));
  }

  // ----- The implementation in place -----

  function Marked(event: Fields, m: Mask): Fields {
    Canonical(event, m)[CAN_MARKER := Str("")]
  }

  /** An event held by the coordinator; several triggers may canonicalise it. */
  class Event {
    var fields: Fields

    constructor (event: Fields)
      ensures fields == event
    {
      fields := event;
    }

    /** Either still as received, or canonicalised under the mask `first` and marked. */
    ghost predicate Holds(event: Fields, first: Mask)
      reads this
    {
      CAN_MARKER !in event && (fields == event || fields == Marked(event, first))
    }

    /** Only the first call has an effect, whatever mask a later one brings. */
    method CanonicalizeEvent(m: Mask, ghost event: Fields, ghost first: Mask)
      requires Holds(event, first)
      modifies this
      ensures fields == Marked(event, if CAN_MARKER in old(fields) then first else m)
    {
      if CAN_MARKER in fields {
        return;
      }
      var f := CanonicalizeEventAsMap(fields, [], m);
      fields := f[CAN_MARKER := Str("")];
    }
  }

  /** However often the two events have been canonicalised before, under a mask that treats all fields alike, the
      result is the learner's; `GuardLosesNothingIff` shows that only such masks will do. */
  method DiffEventInPlace(prev: Event, cur: Event, m: Mask, ghost p: Fields, ghost c: Fields, ghost first: Mask)
    returns (r: Option<(Fields, Fields)>)
    requires prev.Holds(p, first) && cur.Holds(c, first)
    requires prev == cur ==> p == c
    modifies prev, cur
    ensures MasksAlike(first, m) ==> prev.Holds(p, m) && cur.Holds(c, m) && r == LearnedDiff(p, c, m)
    ensures CAN_MARKER in old(prev.fields) && CAN_MARKER in old(cur.fields) ==> r == LearnedDiff(p, c, first)
  {
    prev.CanonicalizeEvent(m, p, first);
    ghost var now := if prev == cur && CAN_MARKER !in old(prev.fields) then m else first;
    cur.CanonicalizeEvent(m, c, now);
    r := DiffEventAsMap(prev.fields, cur.fields);
    if MasksAlike(first, m) {
      AlikeCanon(p, first, m);
      AlikeCanon(c, first, m);
      MarkedDiff(Canonical(p, m), Canonical(c, m));
    }
    MarkedDiff(Canonical(p, first), Canonical(c, first));
  }

  /** The marker, present on both sides, leaves no trace in the difference. */
  lemma {:induction false} MarkedDiff(p: Fields, c: Fields)
    requires CAN_MARKER !in p && CAN_MARKER !in c
    ensures MapDelta(p[CAN_MARKER := Str("")], c[CAN_MARKER := Str("")]) == MapDelta(p, c)
  {
    var mp, mc := p[CAN_MARKER := Str("")], c[CAN_MARKER := Str("")];
    SameIffEqual(Str(""), Str(""));
    assert DiffPrevMap(mp, mc) == DiffPrevMap(p, c);
    assert DiffCurMap(mp, mc) == DiffCurMap(p, c);
  }

  /** Canonicalising without the guard would change nothing but the marker's own field. */
  lemma {:induction false} GuardLosesNothing(event: Fields, m: Mask)
    requires ValidMask(m) && CAN_MARKER !in event
    ensures Canonical(Canonical(event, m), m) == Canonical(event, m)
    ensures Canonical(Marked(event, m), m) - {CAN_MARKER} == Canonical(event, m)
  {
    CanonIdempotent(Obj(event), [], m);
    var once := Canonical(event, m);
    forall k | k in once
      ensures Canonical(Marked(event, m), m)[k] == once[k]
    {
      assert Canonical(once, m)[k] == once[k];
    }
    assert Canonical(Marked(event, m), m) - {CAN_MARKER} == once;
  }

  /** `isAnyFieldModified`: some field of the given part has changed. */
  method IsAnyFieldModified(cur: Event, part: Event, m: Mask, ghost c: Fields, ghost p: Fields, ghost first: Mask)
    returns (modified: bool)
    requires cur.Holds(c, first) && part.Holds(p, first) && cur != part
    modifies cur, part
    ensures MasksAlike(first, m) ==>
              cur.Holds(c, m) && part.Holds(p, m) && modified == !PartOf(Obj(Canonical(p, m)), Obj(Canonical(c, m)))
  {
    part.CanonicalizeEvent(m, p, first);
    cur.CanonicalizeEvent(m, c, first);
    modified := !PartOf(Obj(part.fields), Obj(cur.fields));
    if MasksAlike(first, m) {
      AlikeCanon(p, first, m);
      AlikeCanon(c, first, m);
      MarkedPartOf(Canonical(p, m), Canonical(c, m));
    }
  }

  lemma {:induction false} MarkedPartOf(p: Fields, c: Fields)
    requires CAN_MARKER !in p && CAN_MARKER !in c
    ensures PartOf(Obj(p[CAN_MARKER := Str("")]), Obj(c[CAN_MARKER := Str("")])) == PartOf(Obj(p), Obj(c))
  {
    var mp, mc := p[CAN_MARKER := Str("")], c[CAN_MARKER := Str("")];
    PartOfReflexive(Str(""));
    if PartOf(Obj(p), Obj(c)) {
      assert PartOf(Obj(mp), Obj(mc));
    }
    if PartOf(Obj(mp), Obj(mc)) {
      forall k | k in p ensures k in c && PartOf(p[k], c[k]) {
        assert mp[k] == p[k] && k in mc && mc[k] == c[k];
      }
    }
  }

  /** No field counts as modified while the object contains the part. */
  lemma {:induction false} PartIsUnmodified(part: Fields, cur: Fields, m: Mask)
    requires ValidMask(m) && PartOf(Obj(part), Obj(cur))
    ensures PartOf(Obj(Canonical(part, m)), Obj(Canonical(cur, m)))
  {
    CanonMonotone(Obj(part), Obj(cur), [], m);
  }

  // ----- Two masks on one event -----

  /** Canonicalisation descends to the path: none of its steps is masked. */
  predicate Opens(m: Mask, path: seq<string>) {
    path == [] ||
    (var before, step := path[..|path| - 1], path[|path| - 1];
     Opens(m, before)
     && if before == [] then step != CAN_MARKER && !KeyMasked(m, before, step)
        else !KeyMasked(m, before, step) || (step == "*" && !ItemMasked(m, before)))
  }

  /** The two masks cover the same keys and items, wherever canonicalisation gets to. */
  ghost predicate MasksAlike(a: Mask, b: Mask) {
    (forall t :: a.matches(t) == b.matches(t))
    && forall path :: Opens(a, path) && Opens(b, path) ==> AlikeAt(a, b, path)
  }

  ghost predicate AlikeAt(a: Mask, b: Mask, path: seq<string>) {
    (forall key :: (path == [] ==> key != CAN_MARKER) ==> KeyMasked(a, path, key) == KeyMasked(b, path, key))
    && (path != [] ==> ItemMasked(a, path) == ItemMasked(b, path))
  }

  lemma {:induction false} AlikeBelow(j: Json, path: seq<string>, a: Mask, b: Mask)
    requires MasksAlike(a, b) && path != [] && Opens(a, path) && Opens(b, path)
    ensures Canon(j, path, a) == Canon(j, path, b)
    decreases j
  {
    assert AlikeAt(a, b, path);
    match j
    case Obj(fields) =>
      forall k | k in fields ensures CanonMap(fields, path, a)[k] == CanonMap(fields, path, b)[k] {
        if !KeyMasked(a, path, k) {
          assert (path + [k])[..|path|] == path;
          AlikeBelow(fields[k], path + [k], a, b);
        }
      }
      assert CanonMap(fields, path, a) == CanonMap(fields, path, b);
    case Arr(items) =>
      forall i | 0 <= i < |items| ensures CanonList(items, path, a)[i] == CanonList(items, path, b)[i] {
        if !ItemMasked(a, path) {
          assert (path + ["*"])[..|path|] == path;
          AlikeBelow(items[i], path + ["*"], a, b);
        }
      }
      assert CanonList(items, path, a) == CanonList(items, path, b);
    case _ =>
  }

  lemma {:induction false} AlikeCanon(event: Fields, a: Mask, b: Mask)
    requires MasksAlike(a, b) && CAN_MARKER !in event
    ensures Canonical(event, a) == Canonical(event, b)
  {
    assert Opens(a, []) && Opens(b, []) && AlikeAt(a, b, []);
    forall k | k in event ensures Canonical(event, a)[k] == Canonical(event, b)[k] {
      if !KeyMasked(a, [], k) {
        assert [k][..0] == [] && [] + [k] == [k];
        AlikeBelow(event[k], [k], a, b);
      }
    }
  }

  /** The value with the given path above it. */
  function Below(path: seq<string>, j: Json): Json {
    if path == [] then j
    else
      var before, step := path[..|path| - 1], path[|path| - 1];
      Below(before, if before != [] && step == "*" then Arr([j]) else Obj(map[step := j]))
  }

  lemma {:induction false} CanonOfBelow(path: seq<string>, j: Json, m: Mask)
    requires Opens(m, path)
    ensures Canon(Below(path, j), [], m) == Below(path, Canon(j, path, m))
    decreases |path|
  {
    if path != [] {
      var before, step := path[..|path| - 1], path[|path| - 1];
      assert before + [step] == path;
      if before != [] && step == "*" {
        CanonOfBelow(before, Arr([j]), m);
        assert !ItemMasked(m, before);
        assert Canon(Arr([j]), before, m) == Arr([Canon(j, path, m)]);
      } else {
        CanonOfBelow(before, Obj(map[step := j]), m);
        assert !KeyMasked(m, before, step);
        assert Canon(Obj(map[step := j]), before, m) == Obj(map[step := Canon(j, path, m)]);
      }
    }
  }

  lemma {:induction false} BelowIsInjective(path: seq<string>, a: Json, b: Json)
    requires a != b
    ensures Below(path, a) != Below(path, b)
    decreases |path|
  {
    if path != [] {
      var before, step := path[..|path| - 1], path[|path| - 1];
      if before != [] && step == "*" {
        assert Arr([a]).items[0] != Arr([b]).items[0];
        BelowIsInjective(before, Arr([a]), Arr([b]));
      } else {
        assert Obj(map[step := a]).fields[step] != Obj(map[step := b]).fields[step];
        BelowIsInjective(before, Obj(map[step := a]), Obj(map[step := b]));
      }
    }
  }

  lemma {:induction false} BelowIsEvent(path: seq<string>, j: Json, m: Mask)
    requires Opens(m, path) && (path == [] ==> j.Obj? && CAN_MARKER !in j.fields)
    ensures Below(path, j).Obj? && CAN_MARKER !in Below(path, j).fields
    decreases |path|
  {
    if path != [] {
      var before, step := path[..|path| - 1], path[|path| - 1];
      BelowIsEvent(before, if before != [] && step == "*" then Arr([j]) else Obj(map[step := j]), m);
    }
  }

  /** An event that the two masks treat differently. */
  lemma {:induction false} TellingEvent(a: Mask, b: Mask, path: seq<string>, j: Json)
    returns (event: Fields)
    requires Opens(a, path) && Opens(b, path) && Canon(j, path, a) != Canon(j, path, b)
    requires path == [] ==> j.Obj? && CAN_MARKER !in j.fields
    ensures CAN_MARKER !in event && Canonical(event, a) != Canonical(event, b)
  {
    BelowIsEvent(path, j, a);
    event := Below(path, j).fields;
    CanonOfBelow(path, j, a);
    CanonOfBelow(path, j, b);
    BelowIsInjective(path, Canon(j, path, a), Canon(j, path, b));
  }

  lemma {:induction false} FromNothing(c: Fields)
    ensures MapDelta(map[], c) == if c == map[] then None else Some((map[], c))
  {
    assert DiffPrevMap(map[], c) == map[] && DiffCurMap(map[], c) == c;
  }

  /** For all pairs of events, comparing what the mask `a` left of them gives what comparing them under `b` would,
      if and only if the two masks are alike. */
  lemma {:induction false} GuardLosesNothingIff(a: Mask, b: Mask)
    requires forall t :: a.matches(t) == b.matches(t)
    ensures (forall p, c :: CAN_MARKER !in p && CAN_MARKER !in c ==> LearnedDiff(p, c, a) == LearnedDiff(p, c, b)) <==> MasksAlike(a, b)
  {
    if MasksAlike(a, b) {
      forall p, c | CAN_MARKER !in p && CAN_MARKER !in c
        ensures LearnedDiff(p, c, a) == LearnedDiff(p, c, b)
      {
        AlikeCanon(p, a, b);
        AlikeCanon(c, a, b);
      }
    } else {
      var path :| Opens(a, path) && Opens(b, path) && !AlikeAt(a, b, path);
      var event;
      if key :| (path == [] ==> key != CAN_MARKER) && KeyMasked(a, path, key) != KeyMasked(b, path, key) {
        event := TellingKey(a, b, path, key);
      } else {
        event := TellingItem(a, b, path);
      }
      var nothing: Fields := map[];
      FromNothing(Canonical(event, a));
      FromNothing(Canonical(event, b));
      assert Canonical(nothing, a) == nothing && Canonical(nothing, b) == nothing;
      assert LearnedDiff(nothing, event, a) != LearnedDiff(nothing, event, b);
    }
  }

  lemma {:induction false} TellingKey(a: Mask, b: Mask, path: seq<string>, key: string) returns (event: Fields)
    requires Opens(a, path) && Opens(b, path) && (path == [] ==> key != CAN_MARKER)
    requires KeyMasked(a, path, key) != KeyMasked(b, path, key)
    ensures CAN_MARKER !in event && Canonical(event, a) != Canonical(event, b)
  {
    var fields: Fields := map[key := Arr([])];
    assert CanonMap(fields, path, a)[key] != CanonMap(fields, path, b)[key];
    event := TellingEvent(a, b, path, Obj(fields));
  }

  lemma {:induction false} TellingItem(a: Mask, b: Mask, path: seq<string>) returns (event: Fields)
    requires Opens(a, path) && Opens(b, path) && path != [] && ItemMasked(a, path) != ItemMasked(b, path)
    ensures CAN_MARKER !in event && Canonical(event, a) != Canonical(event, b)
  {
    var j := Arr([Arr([])]);
    assert Canon(j, path, a).items[0] != Canon(j, path, b).items[0];
    event := TellingEvent(a, b, path, j);
  }
}
