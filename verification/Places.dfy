/** What a canonical form and a part are, said by looking up places in them. */
module Places {
  import opened JsonDelta
  import opened TriggerExpr

  datatype Step = Field(key: string) | Item(index: nat)

  type Place = seq<Step>

  /** What stands at a place, if the value has it. */
  function Lookup(j: Json, at: Place): Option<Json> {
    if at == [] then Some(j)
    else
      match at[0]
      case Field(k) => if j.Obj? && k in j.fields then Lookup(j.fields[k], at[1..]) else None
      case Item(i) => if j.Arr? && i < |j.items| then Lookup(j.items[i], at[1..]) else None
  }

  /** The path of a place, as masks write it. */
  function PathOf(at: Place): seq<string> {
    if at == [] then []
    else PathOf(at[..|at| - 1]) + [match at[|at| - 1] case Field(k) => k case Item(_) => "*"]
  }

  /** The last step to the place is masked; a bare key masks fields only. */
  predicate MaskedAt(m: Mask, root: seq<string>, at: Place)
    requires at != []
  {
    root + PathOf(at) in m.paths || (at[|at| - 1].Field? && at[|at| - 1].key in m.keys)
  }

  /** The place is not inside a masked one. */
  predicate Visible(m: Mask, root: seq<string>, at: Place) {
    forall n :: 0 < n <= |at| ==> !MaskedAt(m, root, at[..n])
  }

  /** The same keys, the same number of items, the same leaf unless a regex matches it. */
  predicate SameShape(m: Mask, j: Json, r: Json) {
    match j
    case Obj(fields) => r.Obj? && r.fields.Keys == fields.Keys
    case Arr(items) => r.Arr? && |r.items| == |items|
    case Str(text) => r == if m.matches(text) then VALUE_MASK else j
    case Scalar(_) => r == j
  }

  /** `r` is `j` with the values masked, found below `root`: outermost masked places hold the mask, visible ones keep
      their shape, and there are no others. */
  ghost predicate IsCanonical(m: Mask, root: seq<string>, j: Json, r: Json) {
    forall at :: CanonicalAt(m, root, j, r, at)
  }

  ghost predicate CanonicalAt(m: Mask, root: seq<string>, j: Json, r: Json, at: Place) {
    (Visible(m, root, at) ==>
       Lookup(j, at).Some? == Lookup(r, at).Some?
       && (Lookup(j, at).Some? ==> SameShape(m, Lookup(j, at).value, Lookup(r, at).value)))
    && (at != [] && Visible(m, root, at[..|at| - 1]) && MaskedAt(m, root, at) ==>
          Lookup(r, at) == if Lookup(j, at).Some? then Some(VALUE_MASK) else None)
  }

  // ----- Canonical forms -----

  lemma {:induction false} PathOfCons(s: Step, at: Place)
    ensures PathOf([s] + at) == PathOf([s]) + PathOf(at)
  {
    if at == [] {
      assert [s] + at == [s];
    } else {
      var last := |at| - 1;
      assert ([s] + at)[..last + 1] == [s] + at[..last] && ([s] + at)[last + 1] == at[last];
      PathOfCons(s, at[..last]);
    }
  }

  lemma {:induction false} MaskedBelow(m: Mask, root: seq<string>, s: Step, at: Place)
    requires at != []
    ensures MaskedAt(m, root, [s] + at) == MaskedAt(m, root + PathOf([s]), at)
  {
    PathOfCons(s, at);
    assert root + (PathOf([s]) + PathOf(at)) == root + PathOf([s]) + PathOf(at);
  }

  lemma {:induction false} VisibleBelow(m: Mask, root: seq<string>, s: Step, at: Place)
    ensures Visible(m, root, [s] + at) <==> !MaskedAt(m, root, [s]) && Visible(m, root + PathOf([s]), at)
  {
    var all := [s] + at;
    assert all[..1] == [s];
    forall n | 0 < n <= |at| ensures MaskedAt(m, root, all[..n + 1]) == MaskedAt(m, root + PathOf([s]), at[..n]) {
      assert all[..n + 1] == [s] + at[..n];
      MaskedBelow(m, root, s, at[..n]);
    }
    if Visible(m, root, all) {
      forall n | 0 < n <= |at| ensures !MaskedAt(m, root + PathOf([s]), at[..n]) {
        assert !MaskedAt(m, root, all[..n + 1]);
      }
    }
    if !MaskedAt(m, root, [s]) && Visible(m, root + PathOf([s]), at) {
      forall n | 0 < n <= |all| ensures !MaskedAt(m, root, all[..n]) {
        if n > 1 {
          assert MaskedAt(m, root, all[..n - 1 + 1]) == MaskedAt(m, root + PathOf([s]), at[..n - 1]);
        }
      }
    }
  }

  lemma {:induction false} OneStep(m: Mask, root: seq<string>, s: Step)
    ensures MaskedAt(m, root, [s]) == match s case Field(k) => KeyMasked(m, root, k) case Item(_) => ItemMasked(m, root)
    ensures PathOf([s]) == [match s case Field(k) => k case Item(_) => "*"]
  {
    var step := match s case Field(k) => k case Item(_) => "*";
    assert [s][..0] == [] && PathOf([s]) == [] + [step] == [step];
  }

  /** One step down: the value found there, if there is one. */
  function Down(j: Json, s: Step): Option<Json> {
    match s
    case Field(k) => if j.Obj? && k in j.fields then Some(j.fields[k]) else None
    case Item(i) => if j.Arr? && i < |j.items| then Some(j.items[i]) else None
  }

  lemma {:induction false} LookupDown(j: Json, s: Step, at: Place)
    ensures Lookup(j, [s] + at) == if Down(j, s).Some? then Lookup(Down(j, s).value, at) else None
  {
    assert ([s] + at)[1..] == at;
  }

  lemma {:induction false} CanonDown(j: Json, root: seq<string>, m: Mask, s: Step)
    ensures Down(Canon(j, root, m), s) ==
            if Down(j, s).None? then None
            else if MaskedAt(m, root, [s]) then Some(VALUE_MASK)
            else Some(Canon(Down(j, s).value, root + PathOf([s]), m))
  {
    OneStep(m, root, s);
  }

  lemma {:induction false} CanonIsCanonicalAt(j: Json, root: seq<string>, m: Mask, at: Place)
    ensures CanonicalAt(m, root, j, Canon(j, root, m), at)
    decreases |at|
  {
    if at != [] {
      var s, rest := at[0], at[1..];
      var below := root + PathOf([s]);
      assert at == [s] + rest;
      LookupDown(j, s, rest);
      LookupDown(Canon(j, root, m), s, rest);
      CanonDown(j, root, m, s);
      VisibleBelow(m, root, s, rest);
      if Down(j, s).Some? {
        CanonIsCanonicalAt(Down(j, s).value, below, m, rest);
      }
      if rest == [] {
        assert at[..|at| - 1] == [];
      } else {
        assert at[..|at| - 1] == [s] + rest[..|rest| - 1];
        VisibleBelow(m, root, s, rest[..|rest| - 1]);
        MaskedBelow(m, root, s, rest);
      }
    }
  }

  /** Nothing else is one. */
  lemma {:induction false} CanonicalDown(m: Mask, root: seq<string>, j: Json, r: Json, s: Step)
    requires IsCanonical(m, root, j, r) && Down(j, s).Some?
    ensures Down(r, s).Some?
    ensures if MaskedAt(m, root, [s]) then Down(r, s).value == VALUE_MASK
            else IsCanonical(m, root + PathOf([s]), Down(j, s).value, Down(r, s).value)
  {
    assert CanonicalAt(m, root, j, r, [s]);
    assert [s] + [] == [s] && [s][..0] == [];
    LookupDown(j, s, []);
    LookupDown(r, s, []);
    VisibleBelow(m, root, s, []);
    if !MaskedAt(m, root, [s]) {
      forall at ensures CanonicalAt(m, root + PathOf([s]), Down(j, s).value, Down(r, s).value, at) {
        assert CanonicalAt(m, root, j, r, [s] + at);
        LookupDown(j, s, at);
        LookupDown(r, s, at);
        VisibleBelow(m, root, s, at);
        if at != [] {
          MaskedBelow(m, root, s, at);
          VisibleBelow(m, root, s, at[..|at| - 1]);
          assert ([s] + at)[..|at|] == [s] + at[..|at| - 1];
        }
      }
    }
  }

  lemma {:induction false} CanonicalIsUnique(m: Mask, root: seq<string>, j: Json, r: Json)
    requires IsCanonical(m, root, j, r)
    ensures r == Canon(j, root, m)
    decreases j
  {
    assert CanonicalAt(m, root, j, r, []);
    match j
    case Obj(fields) =>
      forall k | k in fields ensures r.fields[k] == CanonMap(fields, root, m)[k] {
        CanonicalDown(m, root, j, r, Field(k));
        OneStep(m, root, Field(k));
        if !KeyMasked(m, root, k) {
          CanonicalIsUnique(m, root + [k], fields[k], r.fields[k]);
        }
      }
      assert r.fields == CanonMap(fields, root, m);
    case Arr(items) =>
      forall i | 0 <= i < |items| ensures r.items[i] == CanonList(items, root, m)[i] {
        CanonicalDown(m, root, j, r, Item(i));
        OneStep(m, root, Item(i));
        if !ItemMasked(m, root) {
          CanonicalIsUnique(m, root + ["*"], items[i], r.items[i]);
        }
      }
      assert r.items == CanonList(items, root, m);
    case _ =>
  }

  /** The canonical form is the only value that holds the mask at every outermost masked place and at every visible
      string that a regex matches, and the original everywhere else. */
  lemma {:induction false} CanonIff(j: Json, root: seq<string>, m: Mask, r: Json)
    ensures r == Canon(j, root, m) <==> IsCanonical(m, root, j, r)
  {
    forall at ensures CanonicalAt(m, root, j, Canon(j, root, m), at) {
      CanonIsCanonicalAt(j, root, m, at);
    }
    if IsCanonical(m, root, j, r) {
      CanonicalIsUnique(m, root, j, r);
    }
  }

  /** No regex matches the string at the place, if there is one. */
  predicate Unmatched(m: Mask, r: Json, at: Place) {
    match Lookup(r, at)
    case Some(Str(text)) => !m.matches(text)
    case _ => true
  }

  /** No string that a regex matches is left, at any place. */
  lemma {:induction false} NothingMatches(j: Json, root: seq<string>, m: Mask)
    requires ValidMask(m)
    ensures forall at :: Unmatched(m, Canon(j, root, m), at)
  {
    forall at ensures Unmatched(m, Canon(j, root, m), at) {
      UnmatchedAt(j, root, m, at);
    }
  }

  lemma {:induction false} UnmatchedAt(j: Json, root: seq<string>, m: Mask, at: Place)
    requires ValidMask(m)
    ensures Unmatched(m, Canon(j, root, m), at)
    decreases |at|
  {
    if at != [] {
      var s, rest := at[0], at[1..];
      assert at == [s] + rest;
      LookupDown(Canon(j, root, m), s, rest);
      CanonDown(j, root, m, s);
      if Down(j, s).Some? && !MaskedAt(m, root, [s]) {
        UnmatchedAt(Down(j, s).value, root + PathOf([s]), m, rest);
      }
    }
  }

  // ----- Parts -----

  /** The place is, or is inside, a list item that is skipped. */
  predicate Skipped(j: Json, at: Place) {
    exists n :: 0 < n <= |at| && at[n - 1].Item? && Lookup(j, at[..n]) == Some(IDX_SKIP)
  }

  predicate SameKind(a: Json, b: Json) {
    match a
    case Obj(_) => b.Obj?
    case Arr(items) => b.Arr? && |b.items| == |items|
    case _ => a == b
  }

  predicate PartAt(small: Json, large: Json, at: Place) {
    Lookup(small, at).Some? && !Skipped(small, at) ==>
      Lookup(large, at).Some? && SameKind(Lookup(small, at).value, Lookup(large, at).value)
  }

  lemma {:induction false} SkippedBelow(j: Json, s: Step, at: Place)
    requires Down(j, s).Some?
    ensures Skipped(j, [s] + at) <==> (s.Item? && Down(j, s) == Some(IDX_SKIP)) || Skipped(Down(j, s).value, at)
  {
    var all := [s] + at;
    assert all[..1] == [s] + [];
    LookupDown(j, s, []);
    forall n | 0 < n <= |at| ensures Lookup(j, all[..n + 1]) == Lookup(Down(j, s).value, at[..n]) {
      assert all[..n + 1] == [s] + at[..n];
      LookupDown(j, s, at[..n]);
    }
    if Skipped(j, all) {
      var n :| 0 < n <= |all| && all[n - 1].Item? && Lookup(j, all[..n]) == Some(IDX_SKIP);
      if n > 1 {
        assert all[..n - 1 + 1] == all[..n] && at[n - 1 - 1].Item? && Lookup(Down(j, s).value, at[..n - 1]) == Some(IDX_SKIP);
      }
    }
    if n :| 0 < n <= |at| && at[n - 1].Item? && Lookup(Down(j, s).value, at[..n]) == Some(IDX_SKIP) {
      assert all[n + 1 - 1].Item? && Lookup(j, all[..n + 1]) == Some(IDX_SKIP);
    }
    if s.Item? && Down(j, s) == Some(IDX_SKIP) {
      assert all[1 - 1].Item? && Lookup(j, all[..1]) == Some(IDX_SKIP);
    }
  }

  lemma {:induction false} PartIsPartAt(small: Json, large: Json, at: Place)
    requires PartOf(small, large)
    ensures PartAt(small, large, at)
    decreases |at|
  {
    if at != [] && Lookup(small, at).Some? && !Skipped(small, at) {
      var s, rest := at[0], at[1..];
      assert at == [s] + rest;
      LookupDown(small, s, rest);
      LookupDown(large, s, rest);
      SkippedBelow(small, s, rest);
      PartIsPartAt(Down(small, s).value, Down(large, s).value, rest);
    }
  }

  lemma {:induction false} PartBelow(small: Json, large: Json, s: Step)
    requires (forall at :: PartAt(small, large, at)) && Down(small, s).Some? && !(s.Item? && Down(small, s) == Some(IDX_SKIP))
    ensures Down(large, s).Some? && forall at :: PartAt(Down(small, s).value, Down(large, s).value, at)
  {
    LookupDown(small, s, []);
    LookupDown(large, s, []);
    SkippedBelow(small, s, []);
    assert PartAt(small, large, [s] + []);
    forall at ensures PartAt(Down(small, s).value, Down(large, s).value, at) {
      assert PartAt(small, large, [s] + at);
      LookupDown(small, s, at);
      LookupDown(large, s, at);
      SkippedBelow(small, s, at);
    }
  }

  lemma {:induction false} PartAtIsPart(small: Json, large: Json)
    requires forall at :: PartAt(small, large, at)
    ensures PartOf(small, large)
    decreases small
  {
    assert PartAt(small, large, []);
    match small
    case Obj(fields) =>
      forall k | k in fields ensures k in large.fields && PartOf(fields[k], large.fields[k]) {
        PartBelow(small, large, Field(k));
        PartAtIsPart(fields[k], large.fields[k]);
      }
    case Arr(items) =>
      forall i | 0 <= i < |items| && items[i] != IDX_SKIP ensures PartOf(items[i], large.items[i]) {
        PartBelow(small, large, Item(i));
        PartAtIsPart(items[i], large.items[i]);
      }
    case _ =>
  }

  /** A value is part of another if and only if the other has every place of it that is not skipped, with the same leaf or
      number of items there. */
  lemma {:induction false} PartOfIff(small: Json, large: Json)
    ensures PartOf(small, large) <==> forall at :: PartAt(small, large, at)
  {
    if PartOf(small, large) {
      forall at ensures PartAt(small, large, at) {
        PartIsPartAt(small, large, at);
      }
    } else if forall at :: PartAt(small, large, at) {
      PartAtIsPart(small, large);
    }
  }
}
