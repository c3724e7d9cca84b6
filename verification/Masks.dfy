/** The field masks of a resource key: the coordinator's merged, memoised table and the analyser's plain scan. */
module Masks {
  import opened TriggerExpr

  type Path = seq<string>
  type Table = map<string, seq<Path>>
  type Mask = map<string, set<Path>>

  /** Whether a pattern matches a key; None for a malformed pattern. */
  type Matcher = (string, string) -> Option<bool>

  predicate HasWildcard(key: string) {
    '*' in key
  }

  /** A pattern without a wildcard matches only itself. */
  ghost predicate Lawful(matches: Matcher) {
    forall p, key :: !HasWildcard(p) ==> matches(p, key) == Some(p == key)
  }

  predicate Applies(matches: Matcher, p: string, key: string) {
    p == key || matches(p, key) == Some(true)
  }

  /** The path is masked for the key by an entry of the table. */
  ghost predicate Masked(matches: Matcher, table: Table, key: string, path: Path) {
    exists p :: p in table && Applies(matches, p, key) && path in table[p]
  }

  function Elements(paths: seq<Path>): (r: set<Path>)
    ensures forall path :: path in r <==> path in paths
  {
    if paths == [] then {} else Elements(paths[1..]) + {paths[0]}
  }

  /** The scan of the analyser; a dictionary is visited in some order. */
  method ScanMasks(matches: Matcher, table: Table, key: string) returns (masked: seq<Path>)
    ensures forall path :: path in masked <==> Masked(matches, table, key, path)
  {
    masked := [];
    var pending := table.Keys;
    while pending != {}
      invariant pending <= table.Keys
      invariant forall path :: path in masked <==>
                                 exists p :: p in table && p !in pending && Applies(matches, p, key) && path in table[p]
      decreases |pending|
    {
      var p :| p in pending;
      ghost var before, todo := masked, pending;
      pending := pending - {p};
      if Applies(matches, p, key) {
        masked := masked + table[p];
      }
      Scanned(matches, table, key, todo, p, before, masked);
    }
  }

  lemma {:induction false} Scanned(matches: Matcher, table: Table, key: string, pending: set<string>, p: string,
                                   before: seq<Path>, masked: seq<Path>)
    requires pending <= table.Keys && p in pending
    requires forall path :: path in before <==>
                              exists q :: q in table && q !in pending && Applies(matches, q, key) && path in table[q]
    requires masked == if Applies(matches, p, key) then before + table[p] else before
    ensures forall path :: path in masked <==>
                             exists q :: q in table && q !in pending - {p} && Applies(matches, q, key) && path in table[q]
  {
    forall path
      ensures path in masked <==> exists q :: q in table && q !in pending - {p} && Applies(matches, q, key) && path in table[q]
    {
      if path in before {
        var q :| q in table && q !in pending && Applies(matches, q, key) && path in table[q];
        assert q !in pending - {p};
      }
      if q :| q in table && q !in pending - {p} && Applies(matches, q, key) && path in table[q] {
        assert q == p || q !in pending;
      }
    }
  }

  // ----- The merged table -----

  function At(mask: Mask, key: string): set<Path> {
    if key in mask then mask[key] else {}
  }

  function Raw(table: Table, key: string): set<Path> {
    if key in table then Elements(table[key]) else {}
  }

  /** The path comes from a wildcard entry that matches the key. */
  ghost predicate FromPattern(matches: Matcher, mask: Mask, key: string, path: Path) {
    exists p :: p in mask && HasWildcard(p) && matches(p, key) == Some(true) && path in mask[p]
  }

  /** The table as merged from the two files, before its wildcards are handled. */
  ghost predicate Merged(mask: Mask, learned: Table, configured: Table) {
    mask.Keys == learned.Keys + configured.Keys
    && forall key :: key in mask ==> mask[key] == Raw(learned, key) + Raw(configured, key)
  }

  lemma {:induction false} TwoMerges(first: Mask, mask: Mask, learned: Table, configured: Table)
    requires MergedInto(map[], first, learned) && MergedInto(first, mask, configured)
    ensures Merged(mask, learned, configured)
  {
    assert first.Keys == learned.Keys;
    forall key | key in mask ensures mask[key] == Raw(learned, key) + Raw(configured, key) {
      FirstMerge(first, learned, key);
    }
  }

  lemma {:induction false} FirstMerge(first: Mask, learned: Table, key: string)
    requires MergedInto(map[], first, learned)
    ensures At(first, key) == Raw(learned, key)
  {
    assert key in first <==> key in learned;
    assert At(map[], key) + Raw(learned, key) == Raw(learned, key);
  }

  /** The wildcards of `old` are folded into its plain keys. */
  ghost predicate Folded(matches: Matcher, was: Mask, mask: Mask) {
    mask.Keys == was.Keys
    && (forall key :: key in mask && HasWildcard(key) ==> mask[key] == was[key])
    && (forall key, path :: key in mask && !HasWildcard(key) ==>
          (path in mask[key] <==> path in was[key] || FromPattern(matches, was, key, path)))
  }

  /** The path is masked for the key by one of the two files. */
  ghost predicate Due(matches: Matcher, learned: Table, configured: Table, key: string, path: Path) {
    Masked(matches, learned, key, path) || Masked(matches, configured, key, path)
  }

  /** Some pattern matches `k`, and `k` as a pattern matches a plain key that the first one does not. */
  ghost predicate Strays(matches: Matcher, k: string) {
    HasWildcard(k) && matches(k, k).Some?
    && exists p, x :: StraysVia(matches, k, p, x)
  }

  ghost predicate StraysVia(matches: Matcher, k: string, p: string, x: string) {
    HasWildcard(p) && !HasWildcard(x)
    && matches(p, k) == Some(true) && matches(k, x) == Some(true) && matches(p, x) == Some(false)
  }

  /** Every pattern of the table is well-formed for the key. */
  ghost predicate Defined(matches: Matcher, patterns: set<string>, key: string) {
    forall p :: p in patterns && HasWildcard(p) ==> matches(p, key).Some?
  }

  /** The patterns of the two files hold their own paths. */
  ghost predicate OwnPaths(mask: Mask, learned: Table, configured: Table) {
    forall p :: HasWildcard(p) && p in learned.Keys + configured.Keys ==>
      p in mask && mask[p] == Raw(learned, p) + Raw(configured, p)
  }

  /** A pattern that a lookup has added passes on only what is due. */
  ghost predicate PassesDue(matches: Matcher, mask: Mask, learned: Table, configured: Table) {
    forall p, path, x ::
      HasWildcard(p) && p in mask && p !in learned.Keys + configured.Keys && path in mask[p]
      && !HasWildcard(x) && matches(p, x) == Some(true) && Defined(matches, mask.Keys, x) ==>
        Due(matches, learned, configured, x, path)
  }

  /** No lookup has added a pattern. */
  ghost predicate OwnPatterns(mask: Mask, learned: Table, configured: Table) {
    forall p :: p in mask && HasWildcard(p) ==> p in learned.Keys + configured.Keys
  }

  lemma {:induction false} OwnPatternIsDue(matches: Matcher, mask: Mask, learned: Table, configured: Table, key: string,
                                           path: Path)
    requires OwnPaths(mask, learned, configured) && OwnPatterns(mask, learned, configured)
    requires FromPattern(matches, mask, key, path)
    ensures Due(matches, learned, configured, key, path)
  {
    var p :| p in mask && HasWildcard(p) && matches(p, key) == Some(true) && path in mask[p];
    assert Applies(matches, p, key);
  }

  /** What every lookup keeps: plain keys hold exactly what is due. */
  ghost predicate Serves(matches: Matcher, mask: Mask, learned: Table, configured: Table) {
    learned.Keys + configured.Keys <= mask.Keys
    && OwnPaths(mask, learned, configured) && PassesDue(matches, mask, learned, configured)
    && (forall key, path :: key in mask && !HasWildcard(key) ==>
          (path in mask[key] <==> Due(matches, learned, configured, key, path)))
  }

  /** Whatever comes to a plain key from a pattern of the table is due. */
  lemma {:induction false} PatternIsDue(matches: Matcher, mask: Mask, learned: Table, configured: Table, key: string,
                                        path: Path)
    requires OwnPaths(mask, learned, configured) && PassesDue(matches, mask, learned, configured)
    requires !HasWildcard(key) && Defined(matches, mask.Keys, key) && FromPattern(matches, mask, key, path)
    ensures Due(matches, learned, configured, key, path)
  {
    var p :| p in mask && HasWildcard(p) && matches(p, key) == Some(true) && path in mask[p];
    if p in learned.Keys + configured.Keys {
      assert Applies(matches, p, key);
    }
  }

  /** Own paths and those of matching patterns are all that is due to a plain key. */
  lemma {:induction false} AllThatApplies(matches: Matcher, mask: Mask, learned: Table, configured: Table, key: string,
                                          path: Path)
    requires Lawful(matches) && !HasWildcard(key) && OwnPaths(mask, learned, configured)
    requires PassesDue(matches, mask, learned, configured) && Defined(matches, mask.Keys, key)
    ensures (path in Raw(learned, key) + Raw(configured, key) || FromPattern(matches, mask, key, path))
            <==> Due(matches, learned, configured, key, path)
  {
    if path in Raw(learned, key) || path in Raw(configured, key) {
      assert Applies(matches, key, key);
    }
    if FromPattern(matches, mask, key, path) {
      PatternIsDue(matches, mask, learned, configured, key, path);
    }
    if p :| p in learned && Applies(matches, p, key) && path in learned[p] {
      assert HasWildcard(p) || p == key;
    }
    if p :| p in configured && Applies(matches, p, key) && path in configured[p] {
      assert HasWildcard(p) || p == key;
    }
  }

  lemma {:induction false} FoldedServes(matches: Matcher, was: Mask, mask: Mask, learned: Table, configured: Table)
    requires Lawful(matches) && Merged(was, learned, configured) && Folded(matches, was, mask)
    requires forall p, key :: p in was && key in was && HasWildcard(p) && !HasWildcard(key) ==> matches(p, key).Some?
    ensures Serves(matches, mask, learned, configured)
  {
    forall key, path | key in mask && !HasWildcard(key)
      ensures path in mask[key] <==> Due(matches, learned, configured, key, path)
    {
      AllThatApplies(matches, was, learned, configured, key, path);
    }
  }

  lemma {:induction false} FilledServes(matches: Matcher, mask: Mask, learned: Table, configured: Table, key: string,
                                        paths: set<Path>)
    requires Lawful(matches) && Serves(matches, mask, learned, configured) && key !in mask && !Strays(matches, key)
    requires forall path :: path in paths <==> FromPattern(matches, mask, key, path)
    requires Defined(matches, mask.Keys + {key}, key)
    ensures Serves(matches, mask[key := paths], learned, configured)
  {
    if HasWildcard(key) {
      AddedPasses(matches, mask, learned, configured, key, paths, mask[key := paths]);
    } else {
      forall path ensures path in paths <==> Due(matches, learned, configured, key, path) {
        AllThatApplies(matches, mask, learned, configured, key, path);
      }
      OlderPass(matches, mask, learned, configured, key, paths, mask[key := paths]);
    }
  }

  lemma {:induction false} OlderPass(matches: Matcher, mask: Mask, learned: Table, configured: Table, key: string,
                                     paths: set<Path>, mask': Mask)
    requires PassesDue(matches, mask, learned, configured) && key !in mask && !HasWildcard(key)
    requires mask' == mask[key := paths]
    ensures PassesDue(matches, mask', learned, configured)
  {
    forall p, path, x | HasWildcard(p) && p in mask' && p !in learned.Keys + configured.Keys && path in mask'[p] && !HasWildcard(x)
                        && matches(p, x) == Some(true) && Defined(matches, mask'.Keys, x)
      ensures Due(matches, learned, configured, x, path)
    {
      assert p in mask && Defined(matches, mask.Keys, x);
    }
  }

  /** A pattern that does not stray passes on what the patterns it was filled from pass on. */
  lemma {:induction false} AddedPasses(matches: Matcher, mask: Mask, learned: Table, configured: Table, k: string,
                                       paths: set<Path>, mask': Mask)
    requires Lawful(matches) && Serves(matches, mask, learned, configured) && k !in mask && HasWildcard(k)
    requires !Strays(matches, k)
    requires (forall path :: path in paths <==> FromPattern(matches, mask, k, path)) && matches(k, k).Some?
    requires mask' == mask[k := paths]
    ensures PassesDue(matches, mask', learned, configured)
  {
    forall p, path, x | HasWildcard(p) && p in mask' && p !in learned.Keys + configured.Keys && path in mask'[p] && !HasWildcard(x)
                        && matches(p, x) == Some(true) && Defined(matches, mask'.Keys, x)
      ensures Due(matches, learned, configured, x, path)
    {
      assert Defined(matches, mask.Keys, x);
      if p == k {
        ThroughAdded(matches, mask, mask'.Keys, k, x, path);
        PatternIsDue(matches, mask, learned, configured, x, path);
      }
    }
  }

  lemma {:induction false} ThroughAdded(matches: Matcher, mask: Mask, patterns: set<string>, k: string, x: string,
                                        path: Path)
    requires HasWildcard(k) && !HasWildcard(x) && !Strays(matches, k) && matches(k, k).Some?
    requires matches(k, x) == Some(true)
    requires mask.Keys <= patterns && Defined(matches, patterns, x) && FromPattern(matches, mask, k, path)
    ensures FromPattern(matches, mask, x, path)
  {
    var p :| p in mask && HasWildcard(p) && matches(p, k) == Some(true) && path in mask[p];
    assert matches(p, x).Some?;
    assert !StraysVia(matches, k, p, x);
    assert matches(p, x).value;
  }

  class MaskTable {
    const matches: Matcher
    var mask: Mask

    constructor (matches: Matcher)
      ensures this.matches == matches && mask == map[]
    {
      this.matches, mask := matches, map[];
    }

    /** Adds the paths of one file. */
    method Merge(table: Table)
      modifies this
      ensures MergedInto(old(mask), mask, table)
    {
      var pending := table.Keys;
      MergeStart(mask, table);
      while pending != {}
        invariant MergedUpTo(old(mask), mask, table, pending)
        decreases |pending|
      {
        var key :| key in pending;
        MergeStep(old(mask), mask, table, pending, key);
        mask := mask[key := At(mask, key) + Elements(table[key])];
        pending := pending - {key};
      }
      MergeDone(old(mask), mask, table);
    }

    /** Copies the paths of one pattern to the plain keys that it matches. */
    method SpreadPattern(p: string) returns (ok: bool)
      requires p in mask && HasWildcard(p)
      modifies this
      ensures ok <==> forall key :: key in old(mask) && !HasWildcard(key) ==> matches(p, key).Some?
      ensures mask.Keys == old(mask).Keys
      ensures forall key :: key in mask && HasWildcard(key) ==> mask[key] == old(mask)[key]
      ensures ok ==> forall key :: key in mask && !HasWildcard(key) ==>
                                     mask[key] == old(mask)[key] + if matches(p, key) == Some(true) then old(mask)[p] else {}
    {
      var pending := mask.Keys;
      while pending != {}
        invariant SpreadUpTo(matches, p, old(mask), mask, pending)
        decreases |pending|
      {
        var key :| key in pending;
        if !HasWildcard(key) && matches(p, key).None? {
          return false;
        }
        SpreadStep(matches, p, old(mask), mask, pending, key);
        if !HasWildcard(key) && matches(p, key).value {
          mask := mask[key := mask[key] + mask[p]];
        }
        pending := pending - {key};
      }
      ok := true;
    }

    /** Folds every wildcard entry into the plain keys that it matches; false if a pattern is malformed. */
    method HandleWildcards() returns (ok: bool)
      modifies this
      ensures ok <==>
              forall p, key :: p in old(mask) && key in old(mask) && HasWildcard(p) && !HasWildcard(key) ==>
                                 matches(p, key).Some?
      ensures ok ==> Folded(matches, old(mask), mask)
    {
      var pending := mask.Keys;
      ghost var done: Mask := map[];
      while pending != {}
        invariant pending <= mask.Keys == old(mask).Keys
        invariant forall key :: key in mask && HasWildcard(key) ==> mask[key] == old(mask)[key]
        invariant forall p, key :: p in mask && key in mask && HasWildcard(p) && p !in pending && !HasWildcard(key) ==>
                                     matches(p, key).Some?
        invariant done == old(mask) - pending
        invariant forall key, path :: key in mask && !HasWildcard(key) ==>
                                        (path in mask[key] <==> path in old(mask)[key] || FromPattern(matches, done, key, path))
        decreases |pending|
      {
        var p :| p in pending;
        ghost var before, sofar := mask, done;
        pending := pending - {p};
        done := old(mask) - pending;
        if HasWildcard(p) {
          ok := SpreadPattern(p);
          if !ok {
            return;
          }
        }
        forall key, path | key in mask && !HasWildcard(key)
          ensures path in mask[key] <==> path in old(mask)[key] || FromPattern(matches, done, key, path)
        {
          OneMorePattern(matches, sofar, p, old(mask)[p], done, key, path);
        }
      }
      assert done == old(mask);
      ok := true;
    }

    /** The memoised lookup. A plain key gets what is due to it. The table stays in service, also after a key with a
        wildcard if it does not stray. */
    method GetMaskByResourceKey(key: string, ghost learned: Table,
                                ghost configured: Table) returns (r: Option<set<Path>>)
      modifies this
      ensures r.None? <==>
              key !in old(mask) && exists p :: (p in old(mask) || p == key) && HasWildcard(p) && matches(p, key).None?
      ensures r.Some? ==> Looked(matches, old(mask), mask, key) && r.value == mask[key]
      ensures r.Some? && Lawful(matches) && old(Serves(matches, mask, learned, configured)) && !HasWildcard(key) ==>
                forall path :: path in r.value <==> Due(matches, learned, configured, key, path)
      ensures r.Some? && Lawful(matches) && old(Serves(matches, mask, learned, configured)) && !Strays(matches, key) ==>
                Serves(matches, mask, learned, configured)
    {
      if key in mask {
        return Some(mask[key]);
      }
      mask := mask[key := {}];
      var pending := mask.Keys;
      FillStart(matches, old(mask), key);
      while pending != {}
        invariant FilledUpTo(matches, old(mask), mask, key, pending)
        decreases |pending|
      {
        var p :| p in pending;
        if HasWildcard(p) && matches(p, key).None? {
          return None;
        }
        FillStep(matches, old(mask), mask, key, pending, p);
        if HasWildcard(p) && matches(p, key).value {
          mask := mask[key := mask[key] + mask[p]];
        }
        pending := pending - {p};
      }
      if Lawful(matches) && Serves(matches, old(mask), learned, configured) {
        Filled(matches, old(mask), mask, key, learned, configured);
      }
      return Some(mask[key]);
    }
  }

  // ----- The loops over the table, whose order is not fixed -----

  ghost predicate MergedInto(was: Mask, mask: Mask, table: Table) {
    mask.Keys == was.Keys + table.Keys && forall key :: key in mask ==> mask[key] == At(was, key) + Raw(table, key)
  }

  lemma {:induction false} MergeStart(mask: Mask, table: Table)
    ensures MergedUpTo(mask, mask, table, table.Keys)
  {
    assert mask.Keys == mask.Keys + (table.Keys - table.Keys);
  }

  lemma {:induction false} MergeDone(was: Mask, mask: Mask, table: Table)
    requires MergedUpTo(was, mask, table, {})
    ensures MergedInto(was, mask, table)
  {
    assert table.Keys - {} == table.Keys;
  }

  ghost predicate MergedUpTo(was: Mask, mask: Mask, table: Table, pending: set<string>) {
    pending <= table.Keys && mask.Keys == was.Keys + (table.Keys - pending)
    && forall key :: key in mask ==> mask[key] == At(was, key) + if key in pending then {} else Raw(table, key)
  }

  lemma {:induction false} MergeStep(was: Mask, mask: Mask, table: Table, pending: set<string>, key: string)
    requires MergedUpTo(was, mask, table, pending) && key in pending
    ensures MergedUpTo(was, mask[key := At(mask, key) + Elements(table[key])], table, pending - {key})
  {
    assert key in mask ==> mask[key] == At(was, key);
    assert key !in mask ==> key !in was;
  }

  ghost predicate SpreadUpTo(matches: Matcher, p: string, was: Mask, mask: Mask, pending: set<string>) {
    pending <= mask.Keys == was.Keys && p in was
    && (forall key :: key in mask && HasWildcard(key) ==> mask[key] == was[key])
    && (forall key :: key in mask && !HasWildcard(key) && key !in pending ==> matches(p, key).Some?)
    && (forall key :: key in mask && !HasWildcard(key) ==> mask[key] == was[key] + Spread(matches, p, was[p], key, key in pending))
  }

  ghost function Spread(matches: Matcher, p: string, paths: set<Path>, key: string, later: bool): set<Path> {
    if !later && matches(p, key) == Some(true) then paths else {}
  }

  lemma {:induction false} SpreadStep(matches: Matcher, p: string, was: Mask, mask: Mask, pending: set<string>,
                                      key: string)
    requires SpreadUpTo(matches, p, was, mask, pending) && HasWildcard(p)
    requires key in pending && (HasWildcard(key) || matches(p, key).Some?)
    ensures var mask' := if !HasWildcard(key) && matches(p, key).value then mask[key := mask[key] + mask[p]] else mask;
            SpreadUpTo(matches, p, was, mask', pending - {key})
  {
    assert !HasWildcard(key) ==> mask[key] == was[key];
  }

  ghost predicate FilledUpTo(matches: Matcher, was: Mask, mask: Mask, key: string, pending: set<string>) {
    key in mask && key !in was && mask == was[key := mask[key]] && pending <= mask.Keys
    && (forall p :: p in mask && p !in pending && HasWildcard(p) ==> matches(p, key).Some?)
    && forall path :: path in mask[key] <==> FromPattern(matches, was - pending, key, path)
  }

  /** What a lookup of `key` makes of the table. */
  ghost predicate Looked(matches: Matcher, was: Mask, mask: Mask, key: string) {
    if key in was then mask == was else FilledUpTo(matches, was, mask, key, {})
  }

  lemma {:induction false} FillStart(matches: Matcher, was: Mask, key: string)
    requires key !in was
    ensures FilledUpTo(matches, was, was[key := {}], key, was[key := {}].Keys)
  {
    assert was - was[key := {}].Keys == map[];
  }

  lemma {:induction false} FillStep(matches: Matcher, was: Mask, mask: Mask, key: string, pending: set<string>,
                                    p: string)
    requires FilledUpTo(matches, was, mask, key, pending) && p in pending && (HasWildcard(p) ==> matches(p, key).Some?)
    ensures var mask' := if HasWildcard(p) && matches(p, key).value then mask[key := mask[key] + mask[p]] else mask;
            FilledUpTo(matches, was, mask', key, pending - {p})
  {
    var mask' := if HasWildcard(p) && matches(p, key).value then mask[key := mask[key] + mask[p]] else mask;
    var sofar, done := was - pending, was - (pending - {p});
    assert mask' == was[key := mask'[key]];
    forall path
      ensures path in mask'[key] <==> FromPattern(matches, done, key, path)
    {
      if p == key {
        assert done == sofar && mask'[key] == mask[key];
      } else {
        assert done == sofar[p := was[p]];
        OneMorePattern(matches, sofar, p, was[p], done, key, path);
      }
    }
  }

  lemma {:induction false} Filled(matches: Matcher, was: Mask, mask: Mask, key: string, learned: Table,
                                  configured: Table)
    requires Lawful(matches) && Serves(matches, was, learned, configured) && FilledUpTo(matches, was, mask, key, {})
    ensures !Strays(matches, key) ==> Serves(matches, mask, learned, configured)
  {
    assert was - {} == was;
    if !Strays(matches, key) {
      FilledServes(matches, was, learned, configured, key, mask[key]);
    }
  }

  /** The start of the coordinator: both files merged and the wildcards handled, None if a pattern is malformed. */
  method GetMergedMask(matches: Matcher, learned: Table, configured: Table) returns (r: MaskTable?)
    requires Lawful(matches)
    ensures r == null || (fresh(r) && r.matches == matches && Serves(matches, r.mask, learned, configured))
    ensures r == null <==> exists p, key :: p in learned.Keys + configured.Keys && key in learned.Keys + configured.Keys
                                            && HasWildcard(p) && !HasWildcard(key) && matches(p, key).None?
  {
    var t := new MaskTable(matches);
    t.Merge(learned);
    ghost var first := t.mask;
    t.Merge(configured);
    ghost var merged := t.mask;
    TwoMerges(first, merged, learned, configured);
    var ok := t.HandleWildcards();
    if !ok {
      return null;
    }
    FoldedServes(matches, merged, t.mask, learned, configured);
    r := t;
  }

  /** The coordinator's lookup and the analyser's scans of the two files give a plain key the same paths. */
  method LookupIsScan(t: MaskTable, learned: Table, configured: Table, key: string)
    returns (looked: Option<set<Path>>, scanned: set<Path>)
    modifies t
    ensures looked.None? ==> exists p :: t.matches(p, key).None?
    ensures looked.Some? && Lawful(t.matches) && old(Serves(t.matches, t.mask, learned, configured)) ==>
              (!HasWildcard(key) ==> looked.value == scanned)
              && (!Strays(t.matches, key) ==> Serves(t.matches, t.mask, learned, configured))
  {
    looked := t.GetMaskByResourceKey(key, learned, configured);
    var fromConfigured := ScanMasks(t.matches, configured, key);
    var fromLearned := ScanMasks(t.matches, learned, key);
    scanned := Elements(fromConfigured) + Elements(fromLearned);
  }

  /** The files are merged and any keys are looked up one after the other: each plain key gets what the scans give,
      whatever was looked up before, as long as no key strays. */
  method MaskSession(matches: Matcher, learned: Table, configured: Table, keys: seq<string>)
    returns (looked: seq<set<Path>>, scanned: seq<set<Path>>)
    requires Lawful(matches)
    ensures |looked| == |scanned| <= |keys|
    ensures (forall i :: 0 <= i < |keys| ==> !Strays(matches, keys[i])) ==>
              forall i :: 0 <= i < |looked| && !HasWildcard(keys[i]) ==> looked[i] == scanned[i]
    ensures (forall p, key :: matches(p, key).Some?) ==> |looked| == |keys|
  {
    looked, scanned := [], [];
    var t := GetMergedMask(matches, learned, configured);
    if t == null {
      return;
    }
    ghost var safe := forall i :: 0 <= i < |keys| ==> !Strays(matches, keys[i]);
    for i := 0 to |keys|
      invariant fresh(t) && t.matches == matches && |looked| == |scanned| == i
      invariant safe ==> Serves(matches, t.mask, learned, configured)
      invariant safe ==> forall k :: 0 <= k < i && !HasWildcard(keys[k]) ==> looked[k] == scanned[k]
    {
      var r, s := LookupIsScan(t, learned, configured, keys[i]);
      if r.None? {
        return;
      }
      looked, scanned := looked + [r.value], scanned + [s];
    }
  }

  lemma {:induction false} OneMorePattern(matches: Matcher, sofar: Mask, p: string, paths: set<Path>, done: Mask,
                                          key: string, path: Path)
    requires p !in sofar && done == sofar[p := paths]
    ensures FromPattern(matches, done, key, path) <==>
            FromPattern(matches, sofar, key, path) || (HasWildcard(p) && matches(p, key) == Some(true) && path in paths)
  {
    if q :| q in sofar && HasWildcard(q) && matches(q, key) == Some(true) && path in sofar[q] {
      assert q in done && done[q] == sofar[q];
    }
    if HasWildcard(p) && matches(p, key) == Some(true) && path in paths {
      assert p in done && done[p] == paths;
    }
  }
}
