/** Structural differences of JSON objects, their canonical forms, and the part-of relation. */
module JsonDelta {

  /** Numbers, booleans and null are scalars. */
  datatype Json = Obj(fields: map<string, Json>) | Arr(items: seq<Json>) | Str(text: string) | Scalar(value: int)

  /** Marks a list item to skip. */
  const IDX_SKIP: Json := Str("SIEVE-SKIP")
  /** Marks a canonicalised value. */
  const VALUE_MASK: Json := Str("SIEVE-NON-NIL")
  const CAN_MARKER: string := "SIEVE-CAN"

  // ----- Difference -----

  /** The pair of differing parts; `Same` is the pair of Nones. */
  datatype Delta = Same | Changed(prev: Json, cur: Json)

  function PrevItem(d: Delta): Json {
    if d.Same? then IDX_SKIP else d.prev
  }

  function CurItem(d: Delta): Json {
    if d.Same? then IDX_SKIP else d.cur
  }

  function DiffPrevList(prev: seq<Json>, cur: seq<Json>): (r: seq<Json>)
    ensures |r| == |prev|
    ensures forall i :: 0 <= i < |prev| ==> r[i] == if i < |cur| then PrevItem(Diff(prev[i], cur[i])) else prev[i]
    decreases Arr(cur), 0
  {
    seq(|prev|, i requires 0 <= i < |prev| =>
      if i < |cur| then assert cur[i] < Arr(cur); PrevItem(Diff(prev[i], cur[i])) else prev[i])
  }

  function DiffCurList(prev: seq<Json>, cur: seq<Json>): (r: seq<Json>)
    ensures |r| == |cur|
    ensures forall i :: 0 <= i < |cur| ==> r[i] == if i < |prev| then CurItem(Diff(prev[i], cur[i])) else cur[i]
    decreases Arr(cur), 0
  {
    seq(|cur|, i requires 0 <= i < |cur| =>
      if i < |prev| then assert cur[i] < Arr(cur); CurItem(Diff(prev[i], cur[i])) else cur[i])
  }

  function DiffPrevMap(prev: map<string, Json>, cur: map<string, Json>): map<string, Json>
    decreases Obj(cur), 0
  {
    map k | k in prev && (k in cur ==> Diff(prev[k], cur[k]).Changed?) ::
      if k in cur then Diff(prev[k], cur[k]).prev else prev[k]
  }

  function DiffCurMap(prev: map<string, Json>, cur: map<string, Json>): map<string, Json>
    decreases Obj(cur), 0
  {
    map k | k in cur && (k in prev ==> Diff(prev[k], cur[k]).Changed?) ::
      if k in prev then Diff(prev[k], cur[k]).cur else cur[k]
  }

  predicate AllSkipped(items: seq<Json>) {
    forall i :: 0 <= i < |items| ==> items[i] == IDX_SKIP
  }

  function Diff(prev: Json, cur: Json): Delta
    decreases cur, 1
  {
    if prev.Obj? && cur.Obj? then
      var p, c := DiffPrevMap(prev.fields, cur.fields), DiffCurMap(prev.fields, cur.fields);
      if p == map[] && c == map[] then Same else Changed(Obj(p), Obj(c))
    else if prev.Arr? && cur.Arr? then
      var p, c := DiffPrevList(prev.items, cur.items), DiffCurList(prev.items, cur.items);
      if |prev.items| == |cur.items| && AllSkipped(p) && AllSkipped(c) then Same else Changed(Arr(p), Arr(c))
    else if prev != cur then Changed(prev, cur)
    else Same
  }

  lemma {:induction false} SameIffEqual(prev: Json, cur: Json)
    ensures Diff(prev, cur).Same? <==> prev == cur
    decreases cur
  {
    if prev.Obj? && cur.Obj? {
      SameMapIffEqual(prev.fields, cur.fields);
    } else if prev.Arr? && cur.Arr? {
      SameListIffEqual(prev.items, cur.items);
    }
  }

  lemma {:induction false} SameMapIffEqual(prev: map<string, Json>, cur: map<string, Json>)
    ensures DiffPrevMap(prev, cur) == map[] && DiffCurMap(prev, cur) == map[] <==> prev == cur
    decreases Obj(cur), 0
  {
    forall k | k in prev && k in cur
      ensures Diff(prev[k], cur[k]).Same? <==> prev[k] == cur[k]
    {
      SameIffEqual(prev[k], cur[k]);
    }
    if DiffPrevMap(prev, cur) == map[] && DiffCurMap(prev, cur) == map[] {
      assert forall k :: k in prev ==> k !in DiffPrevMap(prev, cur);
      assert forall k :: k in cur ==> k !in DiffCurMap(prev, cur);
    }
  }

  lemma {:induction false} SameListIffEqual(prev: seq<Json>, cur: seq<Json>)
    ensures |prev| == |cur| && AllSkipped(DiffPrevList(prev, cur)) && AllSkipped(DiffCurList(prev, cur)) <==> prev == cur
    decreases Arr(cur), 0
  {
    forall i | 0 <= i < |prev| && i < |cur|
      ensures DiffPrevList(prev, cur)[i] == IDX_SKIP && DiffCurList(prev, cur)[i] == IDX_SKIP <==> prev[i] == cur[i]
    {
      SameIffEqual(prev[i], cur[i]);
      NotBothSkipped(prev[i], cur[i]);
    }
  }

  /** A changed item is never written as a pair of skip marks, even if the data contain the mark. */
  lemma {:induction false} NotBothSkipped(prev: Json, cur: Json)
    ensures Diff(prev, cur).Changed? ==> Diff(prev, cur).prev != IDX_SKIP || Diff(prev, cur).cur != IDX_SKIP
  {
  }

  function Swap(d: Delta): Delta {
    if d.Same? then Same else Changed(d.cur, d.prev)
  }

  lemma {:induction false} DiffSymmetric(prev: Json, cur: Json)
    ensures Diff(cur, prev) == Swap(Diff(prev, cur))
    decreases cur
  {
    if prev.Obj? && cur.Obj? {
      forall k | k in prev.fields && k in cur.fields
        ensures Diff(cur.fields[k], prev.fields[k]) == Swap(Diff(prev.fields[k], cur.fields[k]))
      {
        DiffSymmetric(prev.fields[k], cur.fields[k]);
      }
      assert DiffPrevMap(cur.fields, prev.fields) == DiffCurMap(prev.fields, cur.fields);
      assert DiffCurMap(cur.fields, prev.fields) == DiffPrevMap(prev.fields, cur.fields);
    } else if prev.Arr? && cur.Arr? {
      forall i | 0 <= i < |prev.items| && i < |cur.items|
        ensures Diff(cur.items[i], prev.items[i]) == Swap(Diff(prev.items[i], cur.items[i]))
      {
        DiffSymmetric(prev.items[i], cur.items[i]);
      }
      assert DiffPrevList(cur.items, prev.items) == DiffCurList(prev.items, cur.items);
      assert DiffCurList(cur.items, prev.items) == DiffPrevList(prev.items, cur.items);
    }
  }

  // ----- Patching: the specification that a difference loses nothing -----

  function PatchMap(base: map<string, Json>, minus: map<string, Json>, plus: map<string, Json>): map<string, Json>
    decreases Obj(base), 0
  {
    map k | k in base.Keys + plus.Keys && (k in plus || k !in minus) ::
      if k !in plus then base[k] else if k in base && k in minus then Patch(base[k], minus[k], plus[k]) else plus[k]
  }

  function PatchItem(base: Json, minus: Json, plus: Json): Json
    decreases base, 2
  {
    if minus == IDX_SKIP && plus == IDX_SKIP then base else Patch(base, minus, plus)
  }

  function PatchList(base: seq<Json>, minus: seq<Json>, plus: seq<Json>): (r: seq<Json>)
    ensures |r| == |plus|
    ensures forall i :: 0 <= i < |plus| ==>
      r[i] == if i < |base| && i < |minus| then PatchItem(base[i], minus[i], plus[i]) else plus[i]
    decreases Arr(base), 0
  {
    seq(|plus|, i requires 0 <= i < |plus| =>
      if i < |base| && i < |minus| then assert base[i] < Arr(base); PatchItem(base[i], minus[i], plus[i]) else plus[i])
  }

  /** Replaces the part `minus` of `base` by `plus`. */
  function Patch(base: Json, minus: Json, plus: Json): Json
    decreases base, 1
  {
    if base.Obj? && minus.Obj? && plus.Obj? then Obj(PatchMap(base.fields, minus.fields, plus.fields))
    else if base.Arr? && minus.Arr? && plus.Arr? then Arr(PatchList(base.items, minus.items, plus.items))
    else plus
  }

  function Apply(base: Json, d: Delta): Json {
    if d.Same? then base else Patch(base, d.prev, d.cur)
  }

  lemma {:induction false} DiffIsLossless(prev: Json, cur: Json)
    ensures Apply(prev, Diff(prev, cur)) == cur
    decreases prev
  {
    SameIffEqual(prev, cur);
    if Diff(prev, cur).Changed? {
      if prev.Obj? && cur.Obj? {
        LosslessMap(prev.fields, cur.fields);
      } else if prev.Arr? && cur.Arr? {
        LosslessList(prev.items, cur.items);
      }
    }
  }

  lemma {:induction false} LosslessMap(prev: map<string, Json>, cur: map<string, Json>)
    ensures PatchMap(prev, DiffPrevMap(prev, cur), DiffCurMap(prev, cur)) == cur
    decreases Obj(prev), 0
  {
    var r := PatchMap(prev, DiffPrevMap(prev, cur), DiffCurMap(prev, cur));
    forall k | k in prev && k in cur
      ensures k in r && r[k] == cur[k]
    {
      SameIffEqual(prev[k], cur[k]);
      DiffIsLossless(prev[k], cur[k]);
    }
    assert r.Keys == cur.Keys;
  }

  lemma {:induction false} LosslessList(prev: seq<Json>, cur: seq<Json>)
    ensures PatchList(prev, DiffPrevList(prev, cur), DiffCurList(prev, cur)) == cur
    decreases Arr(prev), 0
  {
    var r := PatchList(prev, DiffPrevList(prev, cur), DiffCurList(prev, cur));
    forall i | 0 <= i < |cur|
      ensures r[i] == cur[i]
    {
      if i < |prev| {
        SameIffEqual(prev[i], cur[i]);
        NotBothSkipped(prev[i], cur[i]);
        DiffIsLossless(prev[i], cur[i]);
      }
    }
  }

  /** The same pair, read the other way round, rebuilds the previous object. */
  lemma {:induction false} DiffIsReversible(prev: Json, cur: Json)
    ensures Apply(cur, Swap(Diff(prev, cur))) == prev
  {
    DiffSymmetric(prev, cur);
    DiffIsLossless(cur, prev);
  }

  // ----- Part-of -----

  predicate PartOf(small: Json, large: Json)
    decreases small
  {
    match small
    case Obj(fields) => large.Obj? && forall k :: k in fields ==> k in large.fields && PartOf(fields[k], large.fields[k])
    case Arr(items) =>
      large.Arr? && |items| == |large.items|
      && forall i :: 0 <= i < |items| ==> items[i] == IDX_SKIP || PartOf(items[i], large.items[i])
    case _ => small == large
  }

  lemma {:induction false} PartOfReflexive(a: Json)
    ensures PartOf(a, a)
    decreases a
  {
    if a.Obj? {
      forall k | k in a.fields ensures PartOf(a.fields[k], a.fields[k]) { PartOfReflexive(a.fields[k]); }
    } else if a.Arr? {
      forall i | 0 <= i < |a.items| ensures PartOf(a.items[i], a.items[i]) { PartOfReflexive(a.items[i]); }
    }
  }

  lemma {:induction false} PartOfTransitive(a: Json, b: Json, c: Json)
    requires PartOf(a, b) && PartOf(b, c)
    ensures PartOf(a, c)
    decreases a
  {
    if a.Obj? {
      forall k | k in a.fields ensures k in c.fields && PartOf(a.fields[k], c.fields[k]) {
        PartOfTransitive(a.fields[k], b.fields[k], c.fields[k]);
      }
    } else if a.Arr? {
      forall i | 0 <= i < |a.items| && a.items[i] != IDX_SKIP ensures PartOf(a.items[i], c.items[i]) {
        SkipIsMinimal(a.items[i], b.items[i]);
        PartOfTransitive(a.items[i], b.items[i], c.items[i]);
      }
    }
  }

  lemma {:induction false} SkipIsMinimal(a: Json, b: Json)
    requires PartOf(a, b)
    ensures b == IDX_SKIP ==> a == IDX_SKIP
  {
  }

  /** Each half of a difference is part of the object it was taken from. */
  lemma {:induction false} HalvesArePartOf(prev: Json, cur: Json)
    ensures Diff(prev, cur).Changed? ==> PartOf(Diff(prev, cur).prev, prev) && PartOf(Diff(prev, cur).cur, cur)
  {
    PrevHalfIsPartOf(prev, cur);
    DiffSymmetric(prev, cur);
    PrevHalfIsPartOf(cur, prev);
  }

  lemma {:induction false} PrevHalfIsPartOf(prev: Json, cur: Json)
    ensures Diff(prev, cur).Changed? ==> PartOf(Diff(prev, cur).prev, prev)
    decreases prev
  {
    if prev.Obj? && cur.Obj? {
      var p := DiffPrevMap(prev.fields, cur.fields);
      forall k | k in p ensures PartOf(p[k], prev.fields[k]) {
        if k in cur.fields { PrevHalfIsPartOf(prev.fields[k], cur.fields[k]); } else { PartOfReflexive(prev.fields[k]); }
      }
    } else if prev.Arr? && cur.Arr? {
      var p := DiffPrevList(prev.items, cur.items);
      forall i | 0 <= i < |p| ensures p[i] == IDX_SKIP || PartOf(p[i], prev.items[i]) {
        if i < |cur.items| { PrevHalfIsPartOf(prev.items[i], cur.items[i]); } else { PartOfReflexive(prev.items[i]); }
      }
    } else {
      PartOfReflexive(prev);
    }
  }

  // ----- Canonical form -----

  /** Field keys and field paths to mask, and the test of the value regexes. */
  datatype Mask = Mask(keys: set<string>, paths: set<seq<string>>, matches: string -> bool)

  /** The regexes match neither sentinel. */
  predicate ValidMask(m: Mask) {
    !m.matches(IDX_SKIP.text) && !m.matches(VALUE_MASK.text)
  }

  predicate KeyMasked(m: Mask, path: seq<string>, key: string) {
    key in m.keys || path + [key] in m.paths
  }

  predicate ItemMasked(m: Mask, path: seq<string>) {
    path + ["*"] in m.paths
  }

  function CanonMap(fields: map<string, Json>, path: seq<string>, m: Mask): map<string, Json>
    decreases Obj(fields), 0
  {
    map k | k in fields :: if KeyMasked(m, path, k) then VALUE_MASK else Canon(fields[k], path + [k], m)
  }

  function CanonList(items: seq<Json>, path: seq<string>, m: Mask): (r: seq<Json>)
    ensures |r| == |items|
    ensures forall i :: 0 <= i < |items| ==> r[i] == if ItemMasked(m, path) then VALUE_MASK else Canon(items[i], path + ["*"], m)
    decreases Arr(items), 0
  {
    seq(|items|, i requires 0 <= i < |items| =>
      assert items[i] < Arr(items); if ItemMasked(m, path) then VALUE_MASK else Canon(items[i], path + ["*"], m))
  }

  function Canon(j: Json, path: seq<string>, m: Mask): Json
    decreases j, 1
  {
    match j
    case Obj(fields) => Obj(CanonMap(fields, path, m))
    case Arr(items) => Arr(CanonList(items, path, m))
    case Str(t) => if m.matches(t) then VALUE_MASK else j
    case Scalar(_) => j
  }

  lemma {:induction false} CanonIdempotent(j: Json, path: seq<string>, m: Mask)
    requires ValidMask(m)
    ensures Canon(Canon(j, path, m), path, m) == Canon(j, path, m)
    decreases j
  {
    if j.Obj? {
      var once := CanonMap(j.fields, path, m);
      var twice := CanonMap(once, path, m);
      forall k | k in j.fields ensures twice[k] == once[k] {
        CanonIdempotent(j.fields[k], path + [k], m);
      }
      assert twice == once;
    } else if j.Arr? {
      var once := CanonList(j.items, path, m);
      var twice := CanonList(once, path, m);
      forall i | 0 <= i < |j.items| ensures twice[i] == once[i] {
        CanonIdempotent(j.items[i], path + ["*"], m);
      }
      assert twice == once;
    }
  }

  lemma {:induction false} CanonMonotone(a: Json, b: Json, path: seq<string>, m: Mask)
    requires ValidMask(m) && PartOf(a, b)
    ensures PartOf(Canon(a, path, m), Canon(b, path, m))
    decreases a
  {
    if a.Obj? {
      var x, y := CanonMap(a.fields, path, m), CanonMap(b.fields, path, m);
      forall k | k in x ensures k in y && PartOf(x[k], y[k]) {
        CanonMonotone(a.fields[k], b.fields[k], path + [k], m);
      }
    } else if a.Arr? {
      var x, y := CanonList(a.items, path, m), CanonList(b.items, path, m);
      forall i | 0 <= i < |x| ensures x[i] == IDX_SKIP || PartOf(x[i], y[i]) {
        if !ItemMasked(m, path) && a.items[i] != IDX_SKIP {
          CanonMonotone(a.items[i], b.items[i], path + ["*"], m);
        }
      }
    }
  }
}
