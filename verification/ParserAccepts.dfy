/** Exactly which texts the front end accepts, and which of them are proper. */
module ParserAccepts {
  import opened TriggerExpr
  import opened Parser
  import opened ParserExact

  // ----- The yard on a shaped text -----

  predicate Distinct(tokens: Tokens) {
    forall t :: t in tokens && !IsOperator(t) ==> multiset(tokens)[t] == 1
  }

  /** What is output so far can be built: no operator comes too early. */
  predicate Steady(out: Tokens) {
    forall j :: 0 < j <= |out| ==> Weight(out[..j]) >= 1
  }

  lemma {:induction false} SteadyMore(out: Tokens, t: string)
    requires Steady(out) && Weight(out + [t]) >= 1
    ensures Steady(out + [t])
  {
    var longer := out + [t];
    forall j | 0 < j <= |longer| ensures Weight(longer[..j]) >= 1 {
      if j <= |out| {
        assert longer[..j] == out[..j];
      } else {
        assert longer[..j] == longer;
      }
    }
  }

  lemma {:induction false} WeightOfSteady(out: Tokens)
    requires Steady(out)
    ensures Weight(out) >= 0 && (out != [] ==> Weight(out) >= 1)
  {
    assert out[..|out|] == out;
  }

  lemma {:induction false} WeightOfOperators(stack: Tokens)
    requires AllOperators(stack)
    ensures Weight(stack) == -|stack|
  {
    if stack != [] {
      WeightOfOperators(stack[1..]);
    }
  }

  lemma {:induction false} OpenedIsStacked(stack: Tokens)
    ensures Opened(stack) <= |stack|
  {
    if stack != [] {
      OpenedIsStacked(stack[..|stack| - 1]);
    }
  }

  predicate Sound(y: Yard) {
    AllOperators(y.stack) && Steady(y.output)
  }

  /** Popping one operator is harmless as long as enough is left. */
  lemma {:induction false} PopOneSteady(y: Yard)
    requires Sound(y) && y.stack != [] && Total(y) + |y.stack| - 1 >= 1
    ensures Sound(PopOne(y))
  {
    var t := Last(y.stack);
    WeightOfOperators(y.stack);
    WeightConcat(y.output, [t]);
    WeightOfOne(t);
    SteadyMore(y.output, t);
  }

  lemma {:induction false} PopHigherSteady(p: int, y: Yard)
    requires p >= 0 && Sound(y) && Total(y) + Opened(y.stack) >= 1
    ensures Sound(PopHigher(p, y))
    decreases |y.stack|
  {
    if y.stack != [] && p < Priority(Last(y.stack)) {
      OpenedIsStacked(y.stack[..|y.stack| - 1]);
      PopOneSteady(y);
      PopOneKeeps(y);
      PopHigherSteady(p, PopOne(y));
    }
  }

  lemma {:induction false} PopToParenSteady(y: Yard)
    requires Sound(y) && Total(y) + Opened(y.stack) >= 1 && Opened(y.stack) >= 1
    ensures PopToParen(y).Some? && Sound(PopToParen(y).value)
    decreases |y.stack|
  {
    if Last(y.stack) != "(" {
      OpenedIsStacked(y.stack[..|y.stack| - 1]);
      PopOneSteady(y);
      PopOneKeeps(y);
      PopToParenSteady(PopOne(y));
    }
  }

  lemma {:induction false} PopAllSteady(y: Yard)
    requires Sound(y) && Total(y) >= 1
    ensures Steady(PopAll(y))
    decreases |y.stack|
  {
    if y.stack != [] {
      PopOneSteady(y);
      PopOneKeeps(y);
      PopAllSteady(PopOne(y));
    }
  }

  /** A token that pops needs something left over before it; a closing parenthesis needs an open one. */
  lemma {:induction false} ShuntTokenSteady(y: Yard, t: string)
    requires Sound(y) && (IsToken(t) || t == "")
    requires IsBinary(t) || t == ")" ==> Total(y) + Opened(y.stack) >= 1
    requires t == ")" ==> Opened(y.stack) >= 1
    ensures ShuntToken(y, t).Some? && Sound(ShuntToken(y, t).value)
  {
    if !IsOperator(t) {
      WeightOfSteady(y.output);
      WeightConcat(y.output, [t]);
      WeightOfOne(t);
      SteadyMore(y.output, t);
    } else if t == ")" {
      PopToParenSteady(y);
    } else if t != "(" {
      TokenKinds(t);
      PopHigherSteady(Priority(t), y);
    }
  }

  lemma {:induction false} ShuntSnoc(tokens: Tokens, t: string, y: Yard)
    ensures Shunt(tokens + [t], y) == match Shunt(tokens, y) case None => None case Some(z) => ShuntToken(z, t)
    decreases |tokens|
  {
    if tokens == [] {
      assert [] + [t] == [t] && [t][1..] == [];
    } else {
      assert (tokens + [t])[1..] == tokens[1..] + [t];
      if ShuntToken(y, tokens[0]).Some? {
        ShuntSnoc(tokens[1..], t, ShuntToken(y, tokens[0]).value);
      }
    }
  }

  /** Nothing is missing in a part that is not missing in the whole. */
  lemma {:induction false} MissingLater(core: Tokens, after: bool, i: nat)
    requires i < |core|
    requires (IsBinary(core[i]) || core[i] == "(") && Separated(core, after) && forall t :: t in core ==> IsToken(t)
    ensures Missing(core[i + 1..], false) <= Missing(core, after) && Separated(core[i + 1..], false)
    decreases i
  {
    TokenKinds(core[0]);
    if i > 0 {
      assert core[1..][i - 1] == core[i] && core[1..][i..] == core[i + 1..];
      MissingLater(core[1..], core[0] == ")" || !IsOperator(core[0]), i - 1);
    }
  }

  /** The core, read from its end after the trailing empty token: the yard never gets stuck, and what it has output can
      be built. */
  lemma {:induction false} YardIsSteady(core: Tokens, start: Yard, i: nat)
    requires i <= |core| && Shaped(core, false) && Closed(core) && Missing(core, false) <= Total(start)
    requires start.stack == [] && Steady(start.output)
    ensures var y := Shunt(Mirror(core[i..]), start);
            y.Some? && Sound(y.value) && Total(y.value) == Total(start) + Surplus(core[i..]) - Closing(core[i..])
            && Opened(y.value.stack) == Closing(core[i..])
    decreases |core| - i
  {
    var rest := core[i..];
    if i < |core| {
      YardIsSteady(core, start, i + 1);
      var y := Shunt(Mirror(core[i + 1..]), start).value;
      var t := core[i];
      assert rest == [t] + core[i + 1..] && rest[1..] == core[i + 1..];
      assert Mirror(rest) == Mirror(core[i + 1..]) + [SwapParen(t)];
      ShuntSnoc(Mirror(core[i + 1..]), SwapParen(t), start);
      TokenKinds(t);
      if IsBinary(t) || t == "(" {
        MissingLater(core, false, i);
        SurplusIsMissing(core[i + 1..], false);
      }
      assert Closing(rest) >= 0;
      ShuntTokenSteady(y, SwapParen(t));
      ShuntTokenKeeps(y, SwapParen(t), ShuntToken(y, SwapParen(t)).value);
    }
  }

  lemma {:induction false} PostfixIsSteady(tokens: Tokens)
    requires Shaped(Core(tokens), false) && Closed(Core(tokens))
    requires Missing(Core(tokens), false) + Closing(Core(tokens)) <= |Trailing(tokens)|
    ensures var p := Postfix(Mirror(tokens)); p.Some? && Steady(p.value) && p.value != []
  {
    var core, start := Core(tokens), Yard([], Trailing(tokens));
    assert core[0..] == core;
    assert Closing(core) >= 0;
    WeightOfOne("");
    assert Steady(Trailing(tokens)) by { assert Trailing(tokens) != [] ==> [""][..1] == [""]; }
    YardIsSteady(core, start, 0);
    AfterTrailing(tokens);
    SurplusIsMissing(core, false);
    var y := Shunt(Mirror(core), start).value;
    PopAllSteady(y);
    PopAllKeeps(y);
  }

  // ----- What is output can be built -----

  /** The names that occur in a text. */
  ghost function Words(s: string): set<string> {
    set t | t in Scan(s, "") && ValidName(t)
  }

  lemma {:induction false} ScanSplit(a: string, current: string, c: char, b: string)
    requires IsOperatorChar(c)
    ensures Scan(a + ([c] + b), current) == Core(Scan(a, current)) + [[c]] + Scan(b, "")
    decreases |a|
  {
    if a == "" {
      assert a + ([c] + b) == [c] + b && ([c] + b)[1..] == b;
      assert Core([current]) == if current != "" then [current] else [];
    } else {
      assert (a + ([c] + b))[1..] == a[1..] + ([c] + b);
      if IsOperatorChar(a[0]) {
        ScanSplit(a[1..], "", c, b);
        var first := (if current != "" then [current] else []) + [[a[0]]];
        ScanNonEmpty(a[1..], "");
        CoreBehind(first, Scan(a[1..], ""));
        assert first + (Core(Scan(a[1..], "")) + [[c]] + Scan(b, "")) == first + Core(Scan(a[1..], "")) + [[c]] + Scan(b, "");
      } else {
        ScanSplit(a[1..], current + [a[0]], c, b);
      }
    }
  }

  lemma {:induction false} ScanNonEmpty(a: string, current: string)
    ensures Scan(a, current) != []
    decreases |a|
  {
    if a != "" {
      ScanNonEmpty(a[1..], if IsOperatorChar(a[0]) then "" else current + [a[0]]);
    }
  }

  lemma {:induction false} WordsSplit(a: string, c: char, b: string)
    requires IsOperatorChar(c)
    ensures Words(a + ([c] + b)) == Words(a) + Words(b)
  {
    ScanSplit(a, "", c, b);
    var tokens := Scan(a, "");
    assert IsOperatorChar([c][0]) && !ValidName([c]);
    forall t | ValidName(t) ensures t in tokens <==> t in Core(tokens) {
      assert tokens == Core(tokens) + Trailing(tokens);
    }
  }

  lemma {:induction false} WordsOfOne(t: string)
    requires ValidName(t) || t == ""
    ensures Words(t) == if t == "" then {} else {t}
  {
    if t != "" {
      assert t + "" == t && "" + t == t;
      ScanName(t, "", "");
    }
  }

  lemma {:induction false} WordsOfComposed(x: string, t: string, y: string)
    requires IsOperator(t)
    ensures Words("(" + x + t + y + ")") == Words(x) + Words(y)
  {
    assert "(" + x + t + y + ")" == "" + ("(" + (x + (t + (y + (")" + "")))));
    assert t == [t[0]];
    WordsSplit("", '(', x + (t + (y + (")" + ""))));
    WordsSplit(x, t[0], y + (")" + ""));
    WordsSplit(y, ')', "");
    WordsOfOne("");
  }

  type WordsOf = string -> set<string>

  ghost predicate Within(words: WordsOf, k: string, n: string) {
    words(k) <= words(n) && |k| <= |n|
  }

  /** Every stored node lies within one that is stacked. */
  ghost predicate Housed(words: WordsOf, nodes: set<string>, stack: Tokens) {
    forall k :: k in nodes ==> exists i :: 0 <= i < |stack| && Within(words, k, stack[i])
  }

  /** The stacked nodes share no names; at most one of them has none. */
  ghost predicate Apart(words: WordsOf, stack: Tokens) {
    (forall i, j :: 0 <= i < j < |stack| ==> words(stack[i]) !! words(stack[j]) && stack[i] != stack[j])
    && (forall i :: 0 <= i < |stack| && words(stack[i]) == {} ==> stack[i] == "")
  }

  /** Only names already read occur. */
  ghost predicate FromSeen(words: WordsOf, nodes: set<string>, seen: set<string>) {
    forall k :: k in nodes ==> words(k) <= seen && (k == "" ==> "" in seen)
  }

  /** The names under which the builder has stored its nodes. */
  ghost predicate Named(words: WordsOf, b: Builder, seen: set<string>) {
    Stacked(b) && FromSeen(words, b.nodes.Keys, seen) && Housed(words, b.nodes.Keys, b.stack) && Apart(words, b.stack)
  }

  lemma {:induction false} HousedMore(words: WordsOf, nodes: set<string>, stack: Tokens, t: string, nodes': set<string>,
                                      longer: Tokens)
    requires Housed(words, nodes, stack) && nodes' == nodes + {t} && longer == stack + [t]
    ensures Housed(words, nodes', longer)
  {
    forall k | k in nodes' ensures exists i :: 0 <= i < |longer| && Within(words, k, longer[i]) {
      if k == t {
        assert longer[|stack|] == t && Within(words, t, longer[|stack|]);
      } else {
        var i :| 0 <= i < |stack| && Within(words, k, stack[i]);
        assert longer[i] == stack[i];
      }
    }
  }

  lemma {:induction false} LiteralIsNew(words: WordsOf, nodes: set<string>, seen: set<string>, t: string)
    requires FromSeen(words, nodes, seen) && t !in seen && words(t) == (if t == "" then {} else {t})
    ensures t !in nodes
  {
  }

  lemma {:induction false} LiteralNamed(words: WordsOf, b: Builder, seen: set<string>, t: string)
    requires Named(words, b, seen) && t !in seen && words(t) == (if t == "" then {} else {t})
    ensures t !in b.nodes && Named(words, Pushed(b, t), seen + {t})
  {
    var c := Pushed(b, t);
    LiteralIsNew(words, b.nodes.Keys, seen, t);
    HousedMore(words, b.nodes.Keys, b.stack, t, c.nodes.Keys, c.stack);
    ApartMore(words, b, seen, t);
    SeenMore(words, b.nodes.Keys, seen, t, c.nodes.Keys);
  }

  lemma {:induction false} SeenMore(words: WordsOf, nodes: set<string>, seen: set<string>, t: string,
                                    nodes': set<string>)
    requires FromSeen(words, nodes, seen) && nodes' == nodes + {t} && words(t) <= {t}
    ensures FromSeen(words, nodes', seen + {t})
  {
  }

  /** The builder after a literal. */
  function Pushed(b: Builder, t: string): Builder {
    Builder(b.stack + [t], b.nodes[t := Node(t, t, Nil, Nil)])
  }

  /** The builder after an operator on the two topmost nodes, which becomes the node `n`. */
  function Combined(b: Builder, t: string, n: string): Builder
    requires |b.stack| >= 2
  {
    var m := |b.stack| - 2;
    Builder(b.stack[..m] + [n], b.nodes[n := Node(t, n, NodeNamed(b.nodes, b.stack[m + 1]), NodeNamed(b.nodes, b.stack[m]))])
  }

  lemma {:induction false} ApartMore(words: WordsOf, b: Builder, seen: set<string>, t: string)
    requires Stacked(b) && FromSeen(words, b.nodes.Keys, seen) && Apart(words, b.stack)
    requires t !in b.nodes && t !in seen && words(t) == (if t == "" then {} else {t})
    ensures Apart(words, b.stack + [t])
  {
    forall i | 0 <= i < |b.stack| ensures words(b.stack[i]) !! words(t) && b.stack[i] != t {
      assert b.stack[i] in b.nodes;
    }
  }

  /** A composed name is longer than its operands, and no other node holds their names. */
  lemma {:induction false} ComposedIsNew(words: WordsOf, nodes: set<string>, stack: Tokens, n: string)
    requires Housed(words, nodes, stack) && Apart(words, stack) && |stack| >= 2
    requires var x, y := stack[|stack| - 1], stack[|stack| - 2]; words(n) == words(x) + words(y) && |n| > |x| && |n| > |y|
    ensures n !in nodes && words(n) != {}
  {
    var top, next := |stack| - 1, |stack| - 2;
    assert words(stack[top]) == {} ==> words(stack[next]) != {};
    var at := if words(stack[top]) != {} then top else next;
    var w :| w in words(stack[at]);
    forall i | 0 <= i < |stack| ensures !Within(words, n, stack[i]) {
      if w in words(stack[i]) {
        SharedWord(words, stack, i, at, w);
      }
    }
  }

  lemma {:induction false} SharedWord(words: WordsOf, stack: Tokens, i: nat, j: nat, w: string)
    requires Apart(words, stack) && i < |stack| && j < |stack| && w in words(stack[i]) && w in words(stack[j])
    ensures i == j
  {
  }

  lemma {:induction false} HousedUnder(words: WordsOf, nodes: set<string>, stack: Tokens, n: string,
                                       nodes': set<string>, shorter: Tokens)
    requires Housed(words, nodes, stack) && |stack| >= 2 && nodes' == nodes + {n}
    requires shorter == stack[..|stack| - 2] + [n]
    requires words(n) == words(stack[|stack| - 1]) + words(stack[|stack| - 2]) && |n| > |stack[|stack| - 1]|
    requires |n| > |stack[|stack| - 2]|
    ensures Housed(words, nodes', shorter)
  {
    var m := |stack| - 2;
    assert Within(words, stack[m], n) && Within(words, stack[m + 1], n);
    forall k | k in nodes' ensures exists i :: 0 <= i < |shorter| && Within(words, k, shorter[i]) {
      if k == n {
        assert Within(words, k, shorter[m]);
      } else {
        var i :| 0 <= i < |stack| && Within(words, k, stack[i]);
        assert i < m ==> shorter[i] == stack[i];
        assert i >= m ==> Within(words, k, shorter[m]);
      }
    }
  }

  lemma {:induction false} ApartUnder(words: WordsOf, nodes: set<string>, stack: Tokens, n: string)
    requires Apart(words, stack) && |stack| >= 2 && n !in nodes && words(n) != {} && forall s :: s in stack ==> s in nodes
    requires words(n) == words(stack[|stack| - 1]) + words(stack[|stack| - 2])
    ensures Apart(words, stack[..|stack| - 2] + [n])
  {
    var m := |stack| - 2;
    forall i | 0 <= i < m ensures words(stack[i]) !! words(n) && stack[i] != n {
      assert stack[i] in stack;
    }
  }

  lemma {:induction false} ComposedNamed(words: WordsOf, b: Builder, seen: set<string>, t: string, n: string)
    requires Named(words, b, seen) && |b.stack| >= 2
    requires var x, y := b.stack[|b.stack| - 1], b.stack[|b.stack| - 2]; words(n) == words(x) + words(y) && |n| > |x| && |n| > |y|
    ensures n !in b.nodes && Named(words, Combined(b, t, n), seen)
  {
    var c := Combined(b, t, n);
    ComposedIsNew(words, b.nodes.Keys, b.stack, n);
    StackedUnder(b, t, n);
    HousedUnder(words, b.nodes.Keys, b.stack, n, c.nodes.Keys, c.stack);
    ApartUnder(words, b.nodes.Keys, b.stack, n);
    SeenUnder(words, b.nodes.Keys, seen, b.stack[|b.stack| - 1], b.stack[|b.stack| - 2], n, c.nodes.Keys);
  }

  lemma {:induction false} StackedUnder(b: Builder, t: string, n: string)
    requires Stacked(b) && |b.stack| >= 2
    ensures Stacked(Combined(b, t, n)) && Combined(b, t, n).nodes.Keys == b.nodes.Keys + {n}
    ensures b.stack[|b.stack| - 1] in b.nodes && b.stack[|b.stack| - 2] in b.nodes
  {
  }

  lemma {:induction false} SeenUnder(words: WordsOf, nodes: set<string>, seen: set<string>, x: string, y: string,
                                     n: string, nodes': set<string>)
    requires FromSeen(words, nodes, seen) && x in nodes && y in nodes && words(n) == words(x) + words(y) && n != ""
    requires nodes' == nodes + {n}
    ensures FromSeen(words, nodes', seen)
  {
  }

  /** The distinct names of `tokens` have not been read, and its operators find their operands. */
  ghost predicate Buildable(tokens: Tokens, height: nat, seen: set<string>) {
    (forall t :: t in tokens ==> IsOperator(t) || ValidName(t) || t == "")
    && (forall t :: t in tokens && !IsOperator(t) ==> t !in seen && multiset(tokens)[t] == 1)
    && forall j :: 0 < j <= |tokens| ==> height + Weight(tokens[..j]) >= 1
  }

  lemma {:induction false} BuildableNext(tokens: Tokens, height: nat, seen: set<string>)
    requires Buildable(tokens, height, seen) && tokens != []
    ensures height + Weight([tokens[0]]) >= 1
    ensures Buildable(tokens[1..], height + Weight([tokens[0]]), if IsOperator(tokens[0]) then seen else seen + {tokens[0]})
  {
    var t, rest := tokens[0], tokens[1..];
    assert tokens == [t] + rest && tokens[..1] == [t];
    forall j | 0 < j <= |rest| ensures height + Weight([t]) + Weight(rest[..j]) >= 1 {
      assert tokens[..j + 1] == [t] + rest[..j];
      WeightConcat([t], rest[..j]);
    }
    assert multiset(tokens) == multiset{t} + multiset(rest);
  }

  lemma {:induction false} BuildSucceeds(tokens: Tokens, b: Builder, seen: set<string>)
    requires Buildable(tokens, |b.stack|, seen) && Named(Words, b, seen)
    ensures BuildAll(tokens, b).Some?
    decreases |tokens|
  {
    if tokens != [] {
      var t := tokens[0];
      BuildableNext(tokens, |b.stack|, seen);
      WeightOfOne(t);
      if IsOperator(t) {
        var x, y := b.stack[|b.stack| - 1], b.stack[|b.stack| - 2];
        WordsOfComposed(x, t, y);
        ComposedNamed(Words, b, seen, t, "(" + x + t + y + ")");
        BuildSucceeds(tokens[1..], Combined(b, t, "(" + x + t + y + ")"), seen);
      } else {
        WordsOfOne(t);
        LiteralNamed(Words, b, seen, t);
        BuildSucceeds(tokens[1..], Pushed(b, t), seen + {t});
      }
    }
  }

  // ----- Names are kept -----

  /** Only operators are ever stacked, so that the output holds the names read. */
  lemma {:induction false} PoppedNames(p: int, y: Yard, t: string)
    requires AllOperators(y.stack) && !IsOperator(t)
    ensures var z := PopHigher(p, y); AllOperators(z.stack) && multiset(z.output)[t] == multiset(y.output)[t]
    ensures multiset(PopAll(y))[t] == multiset(y.output)[t]
    ensures var z := PopToParen(y); z.Some? ==> AllOperators(z.value.stack) && multiset(z.value.output)[t] == multiset(y.output)[t]
    decreases |y.stack|
  {
    if y.stack != [] {
      assert IsOperator(Last(y.stack));
      PoppedNames(p, PopOne(y), t);
    }
  }

  lemma {:induction false} ShuntNames(tokens: Tokens, y: Yard, z: Yard, t: string)
    requires AllOperators(y.stack) && !IsOperator(t) && Shunt(tokens, y) == Some(z)
    ensures AllOperators(z.stack) && multiset(z.output)[t] == multiset(y.output)[t] + multiset(tokens)[t]
    decreases |tokens|
  {
    if tokens == [] {
      assert multiset(tokens)[t] == 0;
    } else {
      var x := tokens[0];
      ShuntTokenNames(y, x, t);
      assert tokens == [x] + tokens[1..];
      ShuntNames(tokens[1..], ShuntToken(y, x).value, z, t);
    }
  }

  lemma {:induction false} ShuntTokenNames(y: Yard, x: string, t: string)
    requires AllOperators(y.stack) && !IsOperator(t) && ShuntToken(y, x).Some?
    ensures var w := ShuntToken(y, x).value; AllOperators(w.stack) && multiset(w.output)[t] == multiset(y.output)[t] + multiset{x}[t]
  {
    PoppedNames(Priority(x), y, t);
  }

  lemma {:induction false} MirrorNames(tokens: Tokens, t: string)
    requires !IsOperator(t)
    ensures multiset(Mirror(tokens))[t] == multiset(tokens)[t]
  {
    if tokens != [] {
      var x, rest := tokens[0], tokens[1..];
      MirrorNames(rest, t);
      assert tokens == [x] + rest;
      assert multiset(tokens)[t] == multiset{x}[t] + multiset(rest)[t];
      assert multiset(Mirror(tokens))[t] == multiset(Mirror(rest))[t] + multiset{SwapParen(x)}[t];
      assert SwapParen(x) == t <==> x == t;
    }
  }

  lemma {:induction false} PostfixNames(tokens: Tokens, postfix: Tokens, t: string)
    requires Postfix(Mirror(tokens)) == Some(postfix) && !IsOperator(t)
    ensures multiset(postfix)[t] == multiset(tokens)[t]
  {
    var z := Shunt(Mirror(tokens), Yard([], [])).value;
    ShuntNames(Mirror(tokens), Yard([], []), z, t);
    PoppedNames(0, z, t);
    MirrorNames(tokens, t);
  }

  /** The builder fails on a name that it has seen. */
  lemma {:induction false} BuiltNames(tokens: Tokens, b: Builder, t: string)
    requires BuildAll(tokens, b).Some? && !IsOperator(t)
    ensures multiset(tokens)[t] <= 1 && (t in b.nodes ==> t !in tokens)
    decreases |tokens|
  {
    if tokens != [] {
      BuiltNames(tokens[1..], BuildToken(b, tokens[0]).value, t);
      assert tokens == [tokens[0]] + tokens[1..];
    }
  }

  // ----- Which texts are accepted -----

  /** What is counted before a text is parsed: the operands that are missing, and the parentheses closed but not opened. */
  function Flaws(text: string): int {
    Missing(Core(Scan(text, "")), false) + Closing(Core(Scan(text, "")))
  }

  /** One flaw is forgiven to a text that ends in an operator or a parenthesis. */
  function Forgiven(text: string): nat {
    |Trailing(Scan(text, ""))|
  }

  lemma {:induction false} AcceptedTokens(tokens: Tokens, postfix: Tokens)
    requires Shaped(Core(tokens), false) && Postfix(Mirror(tokens)) == Some(postfix)
    requires BinaryTree(Reversed(postfix)).Some?
    ensures Distinct(Core(tokens)) && Closed(Core(tokens))
    ensures Missing(Core(tokens), false) + Closing(Core(tokens)) <= |Trailing(tokens)|
  {
    var core := Core(tokens);
    ReversedTwice(postfix);
    var c := BuildAll(postfix, Builder([], map[])).value;
    YardWeighs(tokens, postfix);
    SurplusIsMissing(core, false);
    BuildKeeps(postfix, Builder([], map[]), c);
    forall t | t in core && !IsOperator(t) ensures multiset(core)[t] == 1 {
      PostfixNames(tokens, postfix, t);
      BuiltNames(postfix, Builder([], map[]), t);
      CoreCount(tokens, t);
    }
  }

  lemma {:induction false} CoreCount(tokens: Tokens, t: string)
    ensures multiset(Core(tokens))[t] <= multiset(tokens)[t]
  {
    assert tokens == Core(tokens) + Trailing(tokens);
  }

  lemma {:induction false} TokensAccepted(tokens: Tokens)
    requires Shaped(Core(tokens), false) && Distinct(Core(tokens)) && Closed(Core(tokens))
    requires Missing(Core(tokens), false) + Closing(Core(tokens)) <= |Trailing(tokens)|
    ensures Postfix(Mirror(tokens)).Some? && BinaryTree(Reversed(Postfix(Mirror(tokens)).value)).Some?
  {
    PostfixIsSteady(tokens);
    var postfix := Postfix(Mirror(tokens)).value;
    ReversedTwice(postfix);
    NamesOnce(tokens, postfix);
    BuildSucceeds(postfix, Builder([], map[]), {});
    var c := BuildAll(postfix, Builder([], map[])).value;
    BuildKeeps(postfix, Builder([], map[]), c);
    WeightOfSteady(postfix);
  }

  lemma {:induction false} NamesOnce(tokens: Tokens, postfix: Tokens)
    requires Shaped(Core(tokens), false) && Distinct(Core(tokens)) && Postfix(Mirror(tokens)) == Some(postfix)
    requires Steady(postfix)
    ensures Buildable(postfix, 0, {})
  {
    forall t | t in postfix && !IsOperator(t) ensures (ValidName(t) || t == "") && multiset(postfix)[t] == 1 {
      PostfixNames(tokens, postfix, t);
      assert multiset(postfix)[t] > 0;
      NameOnce(tokens, t);
    }
  }

  lemma {:induction false} NameOnce(tokens: Tokens, t: string)
    requires Shaped(Core(tokens), false) && Distinct(Core(tokens)) && !IsOperator(t) && multiset(tokens)[t] > 0
    ensures (ValidName(t) || t == "") && multiset(tokens)[t] == 1
  {
    var core := Core(tokens);
    assert tokens == core + Trailing(tokens);
    assert multiset(tokens)[t] == multiset(core)[t] + multiset(Trailing(tokens))[t];
    assert t in core <==> multiset(core)[t] > 0;
    assert "" in core ==> IsToken("");
  }

  /** A text in which no operands meet is accepted if and only if its names are distinct, what is opened is closed, and
      its flaws are forgiven. */
  lemma {:induction false} AcceptedIff(text: string)
    requires !Juxtaposed(text)
    ensures ParseTree(text).Some? <==>
            Distinct(Core(Scan(text, ""))) && Closed(Core(Scan(text, ""))) && Flaws(text) <= Forgiven(text)
  {
    var tokens := Scan(text, "");
    assert "" + "" + text == text;
    ScanShape("", "", text);
    if ParseTree(text).Some? {
      AcceptedTokens(tokens, Postfix(Mirror(tokens)).value);
    }
    if Distinct(Core(tokens)) && Closed(Core(tokens)) && Flaws(text) <= Forgiven(text) {
      TokensAccepted(tokens);
    }
  }

  // ----- Which texts are proper -----

  ghost predicate Proper(text: string) {
    exists s :: ObeysPriority(s) && Text(s) == text
  }

  /** A source leaves nothing missing, and an operand behind. */
  lemma {:induction false} NothingMissing(s: Source, rest: Tokens)
    requires ObeysPriority(s)
    ensures Missing(SourceTokens(s) + rest, false) == Missing(rest, true)
  {
    match s
    case Name(n) =>
      assert !IsOperatorChar(n[0]);
      assert ([n] + rest)[1..] == rest;
    case Paren(i) =>
      var tail := [")"] + rest;
      assert SourceTokens(s) + rest == ["("] + (SourceTokens(i) + tail);
      assert (["("] + (SourceTokens(i) + tail))[1..] == SourceTokens(i) + tail;
      NothingMissing(i, tail);
      assert tail[1..] == rest;
    case Infix(op, l, r) =>
      var tail := [[OpChar(op)]] + (SourceTokens(r) + rest);
      assert SourceTokens(s) + rest == SourceTokens(l) + tail;
      NothingMissing(l, tail);
      assert tail[1..] == SourceTokens(r) + rest;
      NothingMissing(r, rest);
  }

  lemma {:induction false} CoreOfSource(s: Source)
    requires ObeysPriority(s)
    ensures Core(SourceTokens(s) + Spurious(s)) == SourceTokens(s)
  {
    LastNameSplit(s);
    var tokens := SourceTokens(s);
    if EndsInParen(s) {
      assert (tokens + [""])[..|tokens|] == tokens;
    } else {
      assert Last(tokens) == LastName(s);
      assert tokens + [] == tokens;
    }
  }

  lemma {:induction false} ProperHasNoFlaws(s: Source)
    requires ObeysPriority(s)
    ensures var core := Core(Scan(Text(s), "")); Closed(core) && Missing(core, false) == 0 && Closing(core) == 0
  {
    TokensOfSource(s);
    CoreOfSource(s);
    PostfixOfSource(s);
    var tokens := SourceTokens(s) + Spurious(s);
    SourceTokensAreTokens(s);
    YardWeighs(tokens, Postfix(Mirror(tokens)).value);
    SourceIsClosed(s);
    NothingMissing(s, []);
    assert SourceTokens(s) + [] == SourceTokens(s);
  }

  lemma {:induction false} SourceTokensAreTokens(s: Source)
    requires ObeysPriority(s)
    ensures forall t :: t in SourceTokens(s) ==> IsToken(t)
  {
    match s
    case Name(_) =>
    case Paren(i) => SourceTokensAreTokens(i);
    case Infix(_, l, r) => SourceTokensAreTokens(l); SourceTokensAreTokens(r);
  }

  /** Any text at all writes an expression, with the priorities and any redundant parentheses, if and only if no operands
      meet in it, what is opened is closed, and it has no flaws. */
  lemma {:induction false} ProperIff(text: string)
    ensures Proper(text) <==> !Juxtaposed(text) && Closed(Core(Scan(text, ""))) && Flaws(text) == 0
  {
    var core := Core(Scan(text, ""));
    if s :| ObeysPriority(s) && Text(s) == text {
      SourceIsNotJuxtaposed(s);
      ProperHasNoFlaws(s);
    }
    if !Juxtaposed(text) && Closed(core) && Flaws(text) == 0 {
      assert "" + "" + text == text;
      ScanShape("", "", text);
      assert core[0..] == core && Closing(core) >= 0;
      var s := SourceOfTokens(core);
      TextOfCore(text, s);
    }
  }

  /** The malformed texts that are accepted although no operands meet in them: those with distinct names and exactly one
      flaw that end in an operator or a parenthesis. */
  lemma {:induction false} MalformedIff(text: string)
    requires !Juxtaposed(text)
    ensures ParseTree(text).Some? && !Proper(text) <==>
            Distinct(Core(Scan(text, ""))) && Closed(Core(Scan(text, ""))) && Flaws(text) == Forgiven(text) == 1
  {
    AcceptedIff(text);
    ProperIff(text);
    var core := Core(Scan(text, ""));
    assert Closed(core) ==> core[0..] == core && Closing(core) >= 0;
  }

  /** In particular, a text without meeting operands that ends in a name is accepted only if it is proper. */
  lemma {:induction false} EndingInName(text: string)
    requires !Juxtaposed(text) && ParseTree(text).Some? && text != "" && !IsOperatorChar(text[|text| - 1])
    ensures Proper(text)
  {
    MalformedIff(text);
    LastTokenOf(text, "");
  }

  lemma {:induction false} LastTokenOf(text: string, current: string)
    requires text != "" && !IsOperatorChar(text[|text| - 1])
    ensures Scan(text, current) != [] && Last(Scan(text, current)) != ""
    decreases |text|
  {
    var next := if IsOperatorChar(text[0]) then "" else current + [text[0]];
    if |text| > 1 {
      LastTokenOf(text[1..], next);
    } else {
      assert Scan(text[1..], next) == [next];
    }
  }

  // ----- Two families of malformed texts -----

  lemma {:induction false} ClosedAround(a: Tokens, b: Tokens)
    requires Closed(a) && Closed(b) && Closing(b) >= 0
    ensures Closed(a + b)
  {
    forall i | 0 <= i <= |a + b| ensures Closing((a + b)[i..]) >= 0 {
      if i <= |a| {
        assert (a + b)[i..] == a[i..] + b;
        ClosingConcat(a[i..], b);
      } else {
        assert (a + b)[i..] == b[i - |a|..];
      }
    }
  }

  lemma {:induction false} OperatorIsClosed(t: string)
    requires IsBinary(t)
    ensures Closed([t]) && Closing([t]) == 0 && Missing([t], true) == 1
  {
    assert [t][1..] == [];
    forall i | 0 <= i <= 1 ensures Closing([t][i..]) >= 0 {
      assert i == 0 ==> [t][i..] == [t];
    }
  }

  /** One flaw in the tokens of a text that ends in an operator or a parenthesis. */
  lemma {:induction false} OneFlawIsForgiven(text: string, core: Tokens)
    requires Scan(text, "") == core + [""] && !Juxtaposed(text) && Distinct(core) && Closed(core)
    requires Missing(core, false) == 1 && Closing(core) == 0
    ensures ParseTree(text).Some? && !Proper(text)
  {
    assert (core + [""])[..|core|] == core;
    MalformedIff(text);
  }

  lemma {:induction false} SourceCore(s: Source)
    requires ObeysPriority(s)
    ensures Closed(SourceTokens(s)) && Missing(SourceTokens(s), false) == 0 && Closing(SourceTokens(s)) == 0
  {
    ProperHasNoFlaws(s);
    TokensOfSource(s);
    CoreOfSource(s);
  }

  lemma {:induction false} OperatorIsNoName(tokens: Tokens, t: string)
    requires Distinct(tokens) && IsOperator(t)
    ensures Distinct(tokens + [t]) && Distinct([t] + tokens)
  {
  }

  /** A complete text followed by an operator is accepted: the operand it lacks gets the empty name. */
  lemma {:induction false} TrailingOperatorIsAccepted(s: Source, op: Op)
    requires ObeysPriority(s) && Distinct(SourceTokens(s))
    ensures ParseTree(Text(s) + [OpChar(op)]).Some? && !Proper(Text(s) + [OpChar(op)])
  {
    var t := [OpChar(op)];
    SourceCore(s);
    OperatorIsClosed(t);
    NothingMissing(s, [t]);
    ClosedAround(SourceTokens(s), [t]);
    ClosingConcat(SourceTokens(s), [t]);
    OperatorIsNoName(SourceTokens(s), t);
    SourceIsNotJuxtaposed(s);
    JoinedTexts(Text(s), t);
    TrailingScan(s, OpChar(op));
    OneFlawIsForgiven(Text(s) + t, SourceTokens(s) + [t]);
  }

  lemma {:induction false} TrailingScan(s: Source, c: char)
    requires ObeysPriority(s) && IsOperatorChar(c)
    ensures Scan(Text(s) + [c], "") == SourceTokens(s) + [[c]] + [""]
  {
    ScanSource(s, [c]);
    ScanOperator(s, c, "");
    assert [c] + "" == [c];
  }

  /** So is an operator followed by a text in parentheses: the operand it lacks on the left turns up on the right. */
  lemma {:induction false} LeadingOperatorIsAccepted(s: Source, op: Op)
    requires ObeysPriority(s) && Distinct(SourceTokens(Paren(s)))
    ensures ParseTree([OpChar(op)] + Text(Paren(s))).Some? && !Proper([OpChar(op)] + Text(Paren(s)))
  {
    var p, t := Paren(s), [OpChar(op)];
    var core := [t] + SourceTokens(p);
    SourceCore(p);
    OperatorIsClosed(t);
    assert core[1..] == SourceTokens(p) && Missing(core, false) == 1 + Missing(SourceTokens(p), false);
    ClosedAround([t], SourceTokens(p));
    ClosingConcat([t], SourceTokens(p));
    OperatorIsNoName(SourceTokens(p), t);
    SourceIsNotJuxtaposed(p);
    JoinedTexts(t, Text(p));
    LeadingScan(p, OpChar(op));
    OneFlawIsForgiven(t + Text(p), core);
  }

  lemma {:induction false} LeadingScan(p: Source, c: char)
    requires ObeysPriority(p) && p.Paren? && IsOperatorChar(c)
    ensures Scan([c] + Text(p), "") == [[c]] + SourceTokens(p) + [""]
  {
    assert ([c] + Text(p))[1..] == Text(p);
    TokensOfSource(p);
    assert [[c]] + (SourceTokens(p) + [""]) == [[c]] + SourceTokens(p) + [""];
  }
}
