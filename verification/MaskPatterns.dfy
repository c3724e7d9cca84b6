/** Looking up a key that contains a wildcard adds a pattern to the mask table: when this changes what later keys get. */
module MaskPatterns {
  import opened TriggerExpr
  import opened Masks

  /** From any table in service, a lookup of `k` and then of a plain key `x` gives `x` what is due to it. */
  ghost predicate KeepsService(matches: Matcher, k: string) {
    forall learned: Table, configured: Table, mask: Mask, mask1: Mask, mask2: Mask, x: string ::
      Serves(matches, mask, learned, configured) && !HasWildcard(x)
      && Looked(matches, mask, mask1, k) && Looked(matches, mask1, mask2, x) ==>
        HoldsDue(matches, mask2, learned, configured, x)
  }

  ghost predicate HoldsDue(matches: Matcher, mask: Mask, learned: Table, configured: Table, x: string) {
    x in mask && forall path :: path in mask[x] <==> Due(matches, learned, configured, x, path)
  }

  /** A lookup of `k` leaves later plain keys alone, if and only if `k` has no wildcard or does not stray. */
  lemma {:induction false} KeepsServiceIff(matches: Matcher, k: string)
    requires Lawful(matches)
    ensures KeepsService(matches, k) <==> !Strays(matches, k)
  {
    if Strays(matches, k) {
      var p, x :| StraysVia(matches, k, p, x);
      StrayingLookup(matches, k, p, x);
    } else {
      forall learned: Table, configured: Table, mask: Mask, mask1: Mask, mask2: Mask, x: string |
        Serves(matches, mask, learned, configured) && !HasWildcard(x)
        && Looked(matches, mask, mask1, k) && Looked(matches, mask1, mask2, x)
        ensures HoldsDue(matches, mask2, learned, configured, x)
      {
        SteadyLookup(matches, k, learned, configured, mask, mask1, mask2, x);
      }
    }
  }

  /** The table with the one pattern `p`: after `k`, the plain key `x` gets a path that is not due to it. */
  lemma {:induction false} StrayingLookup(matches: Matcher, k: string, p: string, x: string)
    requires Lawful(matches) && HasWildcard(k) && matches(k, k).Some? && StraysVia(matches, k, p, x)
    ensures !KeepsService(matches, k)
  {
    var path: Path := [];
    var learned: Table, configured: Table := map[p := [path]], map[];
    var mask: Mask := map[p := {path}];
    var mask1, mask2 := mask[k := {path}], mask[k := {path}][x := {path}];
    assert p != k && x != k && x != p;
    assert Elements([path]) == {path};
    assert Serves(matches, mask, learned, configured) by {
      assert Raw(learned, p) + Raw(configured, p) == {path};
    }
    OnePattern(matches, mask, mask1, k, p, path);
    OnePattern(matches, mask1, mask2, x, k, path);
    assert !Masked(matches, learned, x, path);
    assert !HoldsDue(matches, mask2, learned, configured, x);
  }

  /** A lookup that finds one path, held by one pattern. */
  lemma {:induction false} OnePattern(matches: Matcher, was: Mask, mask: Mask, key: string, p: string, path: Path)
    requires p in was && HasWildcard(p) && path in was[p] && matches(p, key) == Some(true)
    requires forall q :: q in was ==> was[q] == {path}
    requires key !in was && mask == was[key := {path}]
    requires forall q :: q in mask && HasWildcard(q) ==> matches(q, key).Some?
    ensures Looked(matches, was, mask, key)
  {
    assert was - {} == was;
    assert FromPattern(matches, was, key, path);
  }

  lemma {:induction false} SteadyLookup(matches: Matcher, k: string, learned: Table, configured: Table,
                                        mask: Mask, mask1: Mask, mask2: Mask, x: string)
    requires Lawful(matches) && !Strays(matches, k) && !HasWildcard(x) && Serves(matches, mask, learned, configured)
    requires Looked(matches, mask, mask1, k) && Looked(matches, mask1, mask2, x)
    ensures HoldsDue(matches, mask2, learned, configured, x)
  {
    if k !in mask {
      Filled(matches, mask, mask1, k, learned, configured);
    }
    if x !in mask1 {
      Filled(matches, mask1, mask2, x, learned, configured);
    }
  }

  // ----- Patterns whose only special character is the star -----

  /** A star stands for any text without a slash. */
  predicate Glob(p: string, s: string)
    decreases |p| + |s|
  {
    if p == "" then s == ""
    else if p[0] == '*' then Glob(p[1..], s) || (s != "" && s[0] != '/' && Glob(p, s[1..]))
    else s != "" && s[0] == p[0] && Glob(p[1..], s[1..])
  }

  function StarMatcher(): Matcher {
    (p, key) => Some(Glob(p, key))
  }

  lemma {:induction false} GlobWithoutStar(p: string, s: string)
    requires !HasWildcard(p)
    ensures Glob(p, s) <==> p == s
    decreases |p|
  {
    if p != "" {
      assert p == [p[0]] + p[1..];
      if s != "" {
        assert s == [s[0]] + s[1..];
        GlobWithoutStar(p[1..], s[1..]);
      }
    }
  }

  lemma {:induction false} GlobComposes(p: string, q: string, s: string)
    requires Glob(p, q) && Glob(q, s)
    ensures Glob(p, s)
    decreases |p| + |q| + |s|
  {
    if p != "" && p[0] == '*' {
      if Glob(p[1..], q) {
        GlobComposes(p[1..], q, s);
      } else if q[0] == '*' && !Glob(q[1..], s) {
        GlobComposes(p, q, s[1..]);
      } else if q[0] == '*' {
        GlobComposes(p, q[1..], s);
      } else {
        GlobComposes(p, q[1..], s[1..]);
      }
    } else if p != "" {
      GlobComposes(p[1..], q[1..], s[1..]);
    }
  }

  /** With such patterns matching composes, so that no lookup, not even of a key with a wildcard, changes later ones. */
  lemma {:induction false} StarsKeepService(k: string)
    ensures Lawful(StarMatcher()) && !Strays(StarMatcher(), k) && KeepsService(StarMatcher(), k)
  {
    var matches := StarMatcher();
    forall p, key | !HasWildcard(p) ensures matches(p, key) == Some(p == key) {
      GlobWithoutStar(p, key);
    }
    forall p, x ensures !StraysVia(matches, k, p, x) {
      if StraysVia(matches, k, p, x) {
        GlobComposes(p, k, x);
      }
    }
    KeepsServiceIff(matches, k);
  }

  // ----- Patterns with character classes -----

  /** The elements of a pattern; a class matches one of its characters. */
  datatype Element = Star | Any | OneOf(chars: set<char>) | Exactly(c: char)

  function ClassEnd(s: string): Option<nat> {
    if s == "" then None
    else if s[0] == ']' then Some(0)
    else match ClassEnd(s[1..]) case None => None case Some(n) => Some(n + 1)
  }

  lemma {:induction false} ClassEndsInside(s: string)
    ensures ClassEnd(s).Some? ==> ClassEnd(s).value < |s|
  {
    if s != "" {
      ClassEndsInside(s[1..]);
    }
  }

  /** None for a class that is not closed. */
  function ElementsOf(p: string): Option<seq<Element>>
    decreases |p|
  {
    if p == "" then Some([])
    else if p[0] == '[' then
      ClassEndsInside(p[1..]);
      match ClassEnd(p[1..])
      case None => None
      case Some(n) => Prefixed(OneOf(Chars(p[1..n + 1])), ElementsOf(p[n + 2..]))
    else
      Prefixed(if p[0] == '*' then Star else if p[0] == '?' then Any else Exactly(p[0]), ElementsOf(p[1..]))
  }

  function Chars(s: string): set<char> {
    set c | c in s
  }

  function Prefixed(e: Element, rest: Option<seq<Element>>): Option<seq<Element>> {
    if rest.None? then None else Some([e] + rest.value)
  }

  predicate MatchesAll(es: seq<Element>, s: string)
    decreases |es| + |s|
  {
    if es == [] then s == ""
    else
      match es[0]
      case Star => MatchesAll(es[1..], s) || (s != "" && s[0] != '/' && MatchesAll(es, s[1..]))
      case Any => s != "" && s[0] != '/' && MatchesAll(es[1..], s[1..])
      case OneOf(chars) => s != "" && s[0] in chars && MatchesAll(es[1..], s[1..])
      case Exactly(c) => s != "" && s[0] == c && MatchesAll(es[1..], s[1..])
  }

  /** The coordinator's use of `path.Match`: a key without a star is no pattern. */
  function PathMatcher(): Matcher {
    (p, key) =>
      if !HasWildcard(p) then Some(p == key)
      else match ElementsOf(p) case None => None case Some(es) => Some(MatchesAll(es, key))
  }

  predicate Ordinary(s: string) {
    '[' !in s && '?' !in s
  }

  function Simple(s: string): (es: seq<Element>)
    ensures |es| == |s|
  {
    if s == "" then [] else [OneElement(s[0])] + Simple(s[1..])
  }

  function OneElement(c: char): Element {
    if c == '*' then Star else Exactly(c)
  }

  lemma {:induction false} ElementsBehind(u: string, rest: string)
    requires Ordinary(u) && ElementsOf(rest).Some?
    ensures ElementsOf(u + rest) == Some(Simple(u) + ElementsOf(rest).value)
  {
    var es := ElementsOf(rest).value;
    if u == "" {
      assert u + rest == rest && [] + es == es;
    } else {
      var first, tail := OneElement(u[0]), u[1..];
      ElementsBehind(tail, rest);
      FirstElement(u[0], tail + rest);
      assert u + rest == [u[0]] + (tail + rest);
      assert [first] + Simple(tail) + es == [first] + (Simple(tail) + es);
    }
  }

  lemma {:induction false} FirstElement(c: char, rest: string)
    requires c != '[' && c != '?'
    ensures ElementsOf([c] + rest) == Prefixed(OneElement(c), ElementsOf(rest))
  {
    assert ([c] + rest)[1..] == rest;
  }

  lemma {:induction false} LiteralsMatch(u: string, es: seq<Element>, s: string)
    requires !HasWildcard(u)
    ensures MatchesAll(Simple(u) + es, u + s) <==> MatchesAll(es, s)
  {
    if u == "" {
      assert Simple(u) + es == es && u + s == s;
    } else {
      var first, tail := u[0], u[1..];
      LiteralsMatch(tail, es, s);
      LiteralMatches(first, Simple(tail) + es, tail + s);
      FirstOfBoth(u, es, s);
    }
  }

  lemma {:induction false} FirstOfBoth(u: string, es: seq<Element>, s: string)
    requires u != "" && u[0] != '*'
    ensures Simple(u) + es == [Exactly(u[0])] + (Simple(u[1..]) + es) && u + s == [u[0]] + (u[1..] + s)
  {
  }

  lemma {:induction false} LiteralMatches(c: char, es: seq<Element>, s: string)
    ensures MatchesAll([Exactly(c)] + es, [c] + s) <==> MatchesAll(es, s)
  {
    assert ([Exactly(c)] + es)[1..] == es && ([c] + s)[1..] == s;
  }

  lemma {:induction false} MatchesItself(v: string)
    ensures MatchesAll(Simple(v), v)
  {
    if v != "" {
      MatchesItself(v[1..]);
      assert Simple(v)[1..] == Simple(v[1..]);
      if v[0] == '*' {
        assert MatchesAll(Simple(v[1..]), v[1..]);
        assert MatchesAll(Simple(v), v[1..]);
      }
    }
  }

  function WithoutStars(v: string): (r: string)
    ensures !HasWildcard(r)
  {
    if v == "" then "" else if v[0] == '*' then WithoutStars(v[1..]) else [v[0]] + WithoutStars(v[1..])
  }

  lemma {:induction false} MatchesPlain(v: string)
    ensures MatchesAll(Simple(v), WithoutStars(v))
  {
    if v != "" {
      MatchesPlain(v[1..]);
      assert Simple(v)[1..] == Simple(v[1..]);
      if v[0] == '*' {
        assert WithoutStars(v) == WithoutStars(v[1..]);
      } else {
        assert WithoutStars(v)[0] == v[0] && WithoutStars(v)[1..] == WithoutStars(v[1..]);
      }
    }
  }

  function FirstStar(k: string): (i: nat)
    requires HasWildcard(k)
    ensures i < |k| && k[i] == '*' && forall j :: 0 <= j < i ==> k[j] != '*'
  {
    if k[0] == '*' then 0 else 1 + FirstStar(k[1..])
  }

  /** For every key with a star: the class `[*]` in place of its first star matches the key itself, but not the plain
      keys that the key matches as a pattern. */
  lemma {:induction false} ClassesStray(k: string)
    requires HasWildcard(k) && Ordinary(k)
    ensures Strays(PathMatcher(), k)
  {
    var i := FirstStar(k);
    var u, v := k[..i], k[i + 1..];
    assert k == u + ("*" + v) && !HasWildcard(u);
    StrayingClass(u, v);
  }

  lemma {:induction false} StrayingClass(u: string, v: string)
    requires Ordinary(u) && Ordinary(v) && !HasWildcard(u)
    ensures Strays(PathMatcher(), u + ("*" + v))
  {
    var k, p, x := u + ("*" + v), u + ("[*]" + v), u + ("b" + WithoutStars(v));
    assert k[|u|] == '*' && p[|u| + 1] == '*';
    PatternElements(u, v);
    StrayElements(u, v);
    PlainTail(u, v);
    assert StraysVia(PathMatcher(), k, p, x);
  }

  lemma {:induction false} PatternElements(u: string, v: string)
    requires Ordinary(u) && Ordinary(v)
    ensures ElementsOf(u + ("[*]" + v)) == Some(Simple(u) + ([OneOf({'*'})] + Simple(v)))
    ensures ElementsOf(u + ("*" + v)) == Some(Simple(u + ("*" + v)))
  {
    ClassElements(v);
    ElementsBehind(u, "[*]" + v);
    var k := u + ("*" + v);
    ElementsBehind(k, "");
    assert k + "" == k && Simple(k) + [] == Simple(k);
  }

  lemma {:induction false} PlainTail(u: string, v: string)
    requires !HasWildcard(u)
    ensures !HasWildcard(u + ("b" + WithoutStars(v)))
  {
  }

  lemma {:induction false} ClassElements(v: string)
    requires Ordinary(v)
    ensures ElementsOf("[*]" + v) == Some([OneOf({'*'})] + Simple(v))
  {
    var p := "[*]" + v;
    assert p[1..] == "*]" + v && p[1..][1..] == "]" + v && p[3..] == v;
    assert ClassEnd(p[1..][1..]) == Some(0) && ClassEnd(p[1..]) == Some(1);
    assert p[1..2] == "*" && Chars(p[1..2]) == {'*'};
    ElementsBehind(v, "");
    assert v + "" == v && Simple(v) + [] == Simple(v);
  }

  lemma {:induction false} StrayElements(u: string, v: string)
    requires !HasWildcard(u)
    ensures MatchesAll(Simple(u) + ([OneOf({'*'})] + Simple(v)), u + ("*" + v))
    ensures MatchesAll(Simple(u + ("*" + v)), u + ("b" + WithoutStars(v)))
    ensures !MatchesAll(Simple(u) + ([OneOf({'*'})] + Simple(v)), u + ("b" + WithoutStars(v)))
  {
    var inClass := [OneOf({'*'})] + Simple(v);
    assert inClass[1..] == Simple(v) && ("*" + v)[1..] == v && ("b" + WithoutStars(v))[1..] == WithoutStars(v);
    MatchesItself(v);
    LiteralsMatch(u, inClass, "*" + v);
    LiteralsMatch(u, inClass, "b" + WithoutStars(v));
    SimpleConcat(u, "*" + v);
    assert Simple("*" + v) == [Star] + Simple(v) && ([Star] + Simple(v))[1..] == Simple(v);
    MatchesPlain(v);
    LiteralsMatch(u, [Star] + Simple(v), "b" + WithoutStars(v));
  }

  lemma {:induction false} SimpleConcat(a: string, b: string)
    ensures Simple(a + b) == Simple(a) + Simple(b)
  {
    if a == "" {
      assert a + b == b;
    } else {
      assert (a + b)[1..] == a[1..] + b;
      SimpleConcat(a[1..], b);
    }
  }

  /** With classes, a lookup leaves later keys alone whatever the masks are, if and only if its key has no star. */
  lemma {:induction false} ClassesKeepServiceIff(k: string)
    requires Ordinary(k)
    ensures Lawful(PathMatcher()) && (KeepsService(PathMatcher(), k) <==> !HasWildcard(k))
  {
    KeepsServiceIff(PathMatcher(), k);
    if HasWildcard(k) {
      ClassesStray(k);
    }
  }
}
