/** What a difference is, said without the function that computes it: the only minimal pair of
    parts that can be exchanged for each other. */
module DiffExact {
  import opened JsonDelta

  /** Nothing equal is left in the two halves: what stands at the same place on both sides differs, and holds nothing
      equal in turn; list items may be skipped on both sides. */
  predicate Minimal(p: Json, c: Json)
    decreases p
  {
    p != c
    && (p.Obj? && c.Obj? ==> forall k :: k in p.fields && k in c.fields ==> Minimal(p.fields[k], c.fields[k]))
    && (p.Arr? && c.Arr? ==> forall i :: 0 <= i < |p.items| && i < |c.items| ==>
          (p.items[i] == IDX_SKIP && c.items[i] == IDX_SKIP) || Minimal(p.items[i], c.items[i]))
  }

  /** The halves are parts of the two objects, hold nothing equal, and turn either object into the other. */
  predicate IsDifference(prev: Json, cur: Json, p: Json, c: Json) {
    PartOf(p, prev) && PartOf(c, cur) && Minimal(p, c) && Patch(prev, p, c) == cur && Patch(cur, c, p) == prev
  }

  lemma {:induction false} DiffIsMinimal(prev: Json, cur: Json)
    ensures Diff(prev, cur).Changed? ==> Minimal(Diff(prev, cur).prev, Diff(prev, cur).cur)
    decreases prev
  {
    if prev.Obj? && cur.Obj? {
      MinimalFields(prev.fields, cur.fields);
    } else if prev.Arr? && cur.Arr? {
      MinimalItems(prev.items, cur.items);
    }
  }

  lemma {:induction false} MinimalFields(prev: map<string, Json>, cur: map<string, Json>)
    ensures var p, c := DiffPrevMap(prev, cur), DiffCurMap(prev, cur);
            (p == map[] && c == map[]) || Minimal(Obj(p), Obj(c))
    decreases Obj(prev), 0
  {
    var p, c := DiffPrevMap(prev, cur), DiffCurMap(prev, cur);
    forall k | k in p && k in c ensures Minimal(p[k], c[k]) {
      DiffIsMinimal(prev[k], cur[k]);
    }
    if k :| k in p && k in c {
      assert Minimal(p[k], c[k]);
    }
  }

  lemma {:induction false} MinimalItems(prev: seq<Json>, cur: seq<Json>)
    ensures var p, c := DiffPrevList(prev, cur), DiffCurList(prev, cur);
            (|prev| == |cur| && AllSkipped(p) && AllSkipped(c)) || Minimal(Arr(p), Arr(c))
    decreases Arr(prev), 0
  {
    var p, c := DiffPrevList(prev, cur), DiffCurList(prev, cur);
    forall i | 0 <= i < |p| && i < |c|
      ensures (p[i] == IDX_SKIP && c[i] == IDX_SKIP) || Minimal(p[i], c[i])
    {
      DiffIsMinimal(prev[i], cur[i]);
    }
  }

  lemma {:induction false} DiffIsDifference(prev: Json, cur: Json)
    ensures Diff(prev, cur).Changed? ==> IsDifference(prev, cur, Diff(prev, cur).prev, Diff(prev, cur).cur)
  {
    HalvesArePartOf(prev, cur);
    DiffIsMinimal(prev, cur);
    DiffIsLossless(prev, cur);
    DiffIsReversible(prev, cur);
  }

  /** There is no difference between equal objects. */
  lemma {:induction false} NothingToExchange(a: Json, p: Json, c: Json)
    requires PartOf(p, a) && PartOf(c, a) && Minimal(p, c)
    ensures Patch(a, p, c) != a || Patch(a, c, p) != a
    decreases a
  {
    if Patch(a, p, c) == a && Patch(a, c, p) == a {
      if a.Obj? {
        NoFieldToExchange(a.fields, p.fields, c.fields);
      } else if a.Arr? {
        NoItemToExchange(a.items, p.items, c.items);
      }
    }
  }

  lemma {:induction false} NoFieldToExchange(a: map<string, Json>, p: map<string, Json>, c: map<string, Json>)
    requires PartOf(Obj(p), Obj(a)) && PartOf(Obj(c), Obj(a)) && Minimal(Obj(p), Obj(c))
    ensures PatchMap(a, p, c) != a || PatchMap(a, c, p) != a
    decreases Obj(a), 0
  {
    var k :| k in p || k in c;
    if PatchMap(a, p, c) == a && PatchMap(a, c, p) == a {
      assert k in a && k in PatchMap(a, p, c) && k in PatchMap(a, c, p);
      assert PatchMap(a, p, c)[k] == a[k] && PatchMap(a, c, p)[k] == a[k];
      NothingToExchange(a[k], p[k], c[k]);
    }
  }

  lemma {:induction false} NoItemToExchange(a: seq<Json>, p: seq<Json>, c: seq<Json>)
    requires PartOf(Arr(p), Arr(a)) && PartOf(Arr(c), Arr(a)) && Minimal(Arr(p), Arr(c))
    ensures PatchList(a, p, c) != a || PatchList(a, c, p) != a
    decreases Arr(a), 0
  {
    var i :| 0 <= i < |a| && p[i] != c[i];
    var there, back := PatchList(a, p, c), PatchList(a, c, p);
    if there == a && back == a {
      assert there[i] == a[i] && back[i] == a[i];
      ExchangedItem(a[i], a[i], p[i], c[i]);
      NothingToExchange(a[i], p[i], c[i]);
    }
  }

  /** A skip mark on one side only is no mark, but stands for itself. */
  lemma {:induction false} ExchangedItem(prev: Json, cur: Json, p: Json, c: Json)
    requires p != IDX_SKIP || c != IDX_SKIP
    requires (p == IDX_SKIP || PartOf(p, prev)) && (c == IDX_SKIP || PartOf(c, cur))
    requires PatchItem(prev, p, c) == cur && PatchItem(cur, c, p) == prev
    ensures PartOf(p, prev) && PartOf(c, cur)
  {
  }

  /** Nothing else is a difference. */
  lemma {:induction false} DifferenceIsUnique(prev: Json, cur: Json, p: Json, c: Json)
    requires IsDifference(prev, cur, p, c)
    ensures Diff(prev, cur) == Changed(p, c)
    decreases prev
  {
    SameIffEqual(prev, cur);
    if prev == cur {
      NothingToExchange(prev, p, c);
    } else if prev.Obj? && cur.Obj? {
      UniqueFields(prev.fields, cur.fields, p.fields, c.fields);
    } else if prev.Arr? && cur.Arr? {
      UniqueItems(prev.items, cur.items, p.items, c.items);
    }
  }

  lemma {:induction false} UniqueFields(prev: map<string, Json>, cur: map<string, Json>, p: map<string, Json>,
                                        c: map<string, Json>)
    requires IsDifference(Obj(prev), Obj(cur), Obj(p), Obj(c))
    ensures p == DiffPrevMap(prev, cur) && c == DiffCurMap(prev, cur)
    decreases Obj(prev), 1
  {
    forall k
      ensures k in p <==> k in DiffPrevMap(prev, cur)
      ensures k in c <==> k in DiffCurMap(prev, cur)
      ensures k in p ==> p[k] == DiffPrevMap(prev, cur)[k]
      ensures k in c ==> c[k] == DiffCurMap(prev, cur)[k]
    {
      UniqueField(prev, cur, p, c, k);
    }
  }

  lemma {:induction false} UniqueField(prev: map<string, Json>, cur: map<string, Json>, p: map<string, Json>,
                                       c: map<string, Json>, k: string)
    requires IsDifference(Obj(prev), Obj(cur), Obj(p), Obj(c))
    ensures k in p <==> k in DiffPrevMap(prev, cur)
    ensures k in c <==> k in DiffCurMap(prev, cur)
    ensures k in p ==> p[k] == DiffPrevMap(prev, cur)[k]
    ensures k in c ==> c[k] == DiffCurMap(prev, cur)[k]
    decreases Obj(prev), 0
  {
    assert PatchMap(prev, p, c) == cur && PatchMap(cur, c, p) == prev;
    if k in prev && k in cur {
      if k in p || k in c {
        assert k in PatchMap(prev, p, c) && k in PatchMap(cur, c, p);
        assert PatchMap(prev, p, c)[k] == cur[k] && PatchMap(cur, c, p)[k] == prev[k];
        DifferenceIsUnique(prev[k], cur[k], p[k], c[k]);
      } else {
        assert PatchMap(prev, p, c)[k] == prev[k];
        SameIffEqual(prev[k], cur[k]);
      }
    }
  }

  lemma {:induction false} UniqueItems(prev: seq<Json>, cur: seq<Json>, p: seq<Json>, c: seq<Json>)
    requires IsDifference(Arr(prev), Arr(cur), Arr(p), Arr(c))
    ensures p == DiffPrevList(prev, cur) && c == DiffCurList(prev, cur)
    decreases Arr(prev), 0
  {
    var toCur, toPrev := PatchList(prev, p, c), PatchList(cur, c, p);
    assert toCur == cur && toPrev == prev;
    forall i | 0 <= i < |prev| && i < |cur|
      ensures p[i] == PrevItem(Diff(prev[i], cur[i])) && c[i] == CurItem(Diff(prev[i], cur[i]))
    {
      assert toCur[i] == cur[i] && toPrev[i] == prev[i];
      SameIffEqual(prev[i], cur[i]);
      if p[i] != IDX_SKIP || c[i] != IDX_SKIP {
        assert Minimal(p[i], c[i]);
        ExchangedItem(prev[i], cur[i], p[i], c[i]);
        DifferenceIsUnique(prev[i], cur[i], p[i], c[i]);
      }
    }
    assert forall i :: |cur| <= i < |prev| ==> toPrev[i] == p[i];
    assert forall i :: |prev| <= i < |cur| ==> toCur[i] == c[i];
  }

  /** The pair computed is the only minimal pair of parts that turns either object into the other. */
  lemma {:induction false} DiffIff(prev: Json, cur: Json, p: Json, c: Json)
    ensures Diff(prev, cur) == Changed(p, c) <==> IsDifference(prev, cur, p, c)
  {
    DiffIsDifference(prev, cur);
    if IsDifference(prev, cur, p, c) {
      DifferenceIsUnique(prev, cur, p, c);
    }
  }
}
