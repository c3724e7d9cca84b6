/** Which texts the front end accepts: those that obey the priorities, and some others. */
module ParserExact {
  import opened TriggerExpr
  import opened Parser

  // ----- Texts in which two operands meet -----

  /** The second character would begin an operand right after the first one ended another. */
  predicate Meet(a: char, b: char) {
    (b == '(' && (a == ')' || !IsOperatorChar(a))) || (a == ')' && !IsOperatorChar(b))
  }

  /** Two operands meet without an operator between them. */
  predicate Juxtaposed(text: string) {
    exists i :: 0 <= i < |text| - 1 && Meet(text[i], text[i + 1])
  }

  predicate IsBinary(t: string) {
    t == ";" || t == "&" || t == "|"
  }

  /** The tokens of a text, without the empty one at the end. */
  predicate IsToken(t: string) {
    ValidName(t) || IsOperator(t)
  }

  /** No operand begins where the one before has just ended. */
  predicate Separated(tokens: Tokens, after: bool) {
    tokens == []
    || (var t := tokens[0];
        (after ==> IsBinary(t) || t == ")") && Separated(tokens[1..], t == ")" || !IsOperator(t)))
  }

  function Core(tokens: Tokens): Tokens {
    if tokens != [] && Last(tokens) == "" then tokens[..|tokens| - 1] else tokens
  }

  lemma {:induction false} NotJuxtaposedSuffix(a: string, b: string)
    requires !Juxtaposed(a + b)
    ensures !Juxtaposed(b)
    ensures a != "" && b != "" ==> !Meet(a[|a| - 1], b[0])
  {
    var text := a + b;
    forall i | 0 <= i < |b| - 1 ensures !Meet(b[i], b[i + 1]) {
      assert !Meet(text[|a| + i], text[|a| + i + 1]);
    }
    if a != "" && b != "" {
      assert !Meet(text[|a| - 1], text[|a| - 1 + 1]);
    }
  }

  /** The tokens read after `before` (one operator character, or none) and the name `current`. */
  lemma {:induction false} ScanShape(before: string, current: string, exp: string)
    requires !Juxtaposed(before + current + exp) && |before| <= 1 && (before != "" ==> IsOperatorChar(before[0]))
    requires forall i :: 0 <= i < |current| ==> !IsOperatorChar(current[i])
    ensures var tokens := Scan(exp, current);
            tokens != [] && Shaped(Core(tokens), before == ")")
    decreases |exp|
  {
    assert before + (current + exp) == before + current + exp;
    NotJuxtaposedSuffix(before, current + exp);
    if exp == "" {
      assert Core([current]) == if current == "" then [] else [current];
    } else if IsOperatorChar(exp[0]) {
      var c, rest := exp[0], exp[1..];
      assert exp == [c] + rest;
      NotJuxtaposedSuffix(before + current, exp);
      ScanShape([c], "", rest);
      ShapeOfOperator(before, current, c, Scan(rest, ""));
    } else {
      assert before + (current + [exp[0]]) + exp[1..] == before + current + exp;
      ScanShape(before, current + [exp[0]], exp[1..]);
    }
  }

  /** Names and operators, in separate places. */
  predicate Shaped(tokens: Tokens, after: bool) {
    Separated(tokens, after) && forall t :: t in tokens ==> IsToken(t)
  }

  lemma {:induction false} ShapeOfOperator(before: string, current: string, c: char, rest: Tokens)
    requires IsOperatorChar(c) && rest != [] && Shaped(Core(rest), c == ')')
    requires forall i :: 0 <= i < |current| ==> !IsOperatorChar(current[i])
    requires current == "" ==> before == "" || !Meet(before[|before| - 1], c)
    requires current != "" ==> before != ")" && !Meet(current[|current| - 1], c)
    ensures Shaped(Core((if current != "" then [current] else []) + [[c]] + rest), before == ")")
  {
    if current == "" {
      assert [] + [[c]] + rest == [[c]] + rest;
      BehindOperator(c, rest, before == ")");
    } else {
      BehindOperator(c, rest, true);
      BehindName(current, [[c]] + rest);
      assert [current] + [[c]] + rest == [current] + ([[c]] + rest);
    }
  }

  lemma {:induction false} BehindOperator(c: char, rest: Tokens, after: bool)
    requires IsOperatorChar(c) && rest != [] && Shaped(Core(rest), c == ')') && (after ==> c != '(')
    ensures Shaped(Core([[c]] + rest), after)
  {
    CoreBehind([[c]], rest);
    SeparatedFirst([c], Core(rest), after);
  }

  lemma {:induction false} BehindName(n: string, rest: Tokens)
    requires ValidName(n) && rest != [] && Shaped(Core(rest), true)
    ensures Shaped(Core([n] + rest), false)
  {
    CoreBehind([n], rest);
    assert !IsOperatorChar(n[0]);
    SeparatedFirst(n, Core(rest), false);
  }

  /** The trailing empty token is the only one that the core lacks. */
  lemma {:induction false} CoreBehind(first: Tokens, rest: Tokens)
    requires rest != []
    ensures Core(first + rest) == first + Core(rest)
  {
    assert Last(first + rest) == Last(rest);
    assert (first + rest)[..|first + rest| - 1] == first + rest[..|rest| - 1];
  }

  lemma {:induction false} SeparatedFirst(t: string, rest: Tokens, after: bool)
    requires Separated(rest, t == ")" || !IsOperator(t)) && (after ==> IsBinary(t) || t == ")")
    ensures Separated([t] + rest, after)
  {
    assert ([t] + rest)[1..] == rest;
  }

  function Join(tokens: Tokens): string {
    if tokens == [] then "" else tokens[0] + Join(tokens[1..])
  }

  lemma {:induction false} JoinConcat(a: Tokens, b: Tokens)
    ensures Join(a + b) == Join(a) + Join(b)
  {
    if a == [] {
      assert a + b == b;
    } else {
      assert (a + b)[1..] == a[1..] + b;
      JoinConcat(a[1..], b);
    }
  }

  /** The tokens of a text make up the text. */
  lemma {:induction false} JoinOfScan(exp: string, current: string)
    ensures Join(Scan(exp, current)) == current + exp
    decreases |exp|
  {
    if exp == "" {
      assert Join([current]) == current + Join([]);
    } else if IsOperatorChar(exp[0]) {
      JoinOfScan(exp[1..], "");
      JoinOfOperator(current, [exp[0]], Scan(exp[1..], ""));
      assert exp == [exp[0]] + exp[1..] && "" + exp[1..] == exp[1..];
    } else {
      JoinOfScan(exp[1..], current + [exp[0]]);
      assert exp == [exp[0]] + exp[1..];
    }
  }

  lemma {:induction false} JoinOfOperator(current: string, t: string, rest: Tokens)
    ensures Join((if current != "" then [current] else []) + [t] + rest) == current + (t + Join(rest))
  {
    var first := if current != "" then [current] else [];
    assert Join(first) == current by { assert current != "" ==> Join([current]) == current + Join([]); }
    assert Join([t]) == t + Join([]);
    JoinConcat(first, [t]);
    JoinConcat(first + [t], rest);
  }

  lemma {:induction false} JoinOfSource(s: Source)
    ensures Join(SourceTokens(s)) == Text(s)
  {
    match s
    case Name(n) =>
      assert Join([n]) == n + Join([]);
    case Paren(i) =>
      JoinOfSource(i);
      assert Join(["("]) == "(" + Join([]) && Join([")"]) == ")" + Join([]);
      JoinConcat(["("], SourceTokens(i));
      JoinConcat(["("] + SourceTokens(i), [")"]);
    case Infix(op, l, r) =>
      JoinOfSource(l);
      JoinOfSource(r);
      assert Join([[OpChar(op)]]) == [OpChar(op)] + Join([]);
      JoinConcat(SourceTokens(l), [[OpChar(op)]]);
      JoinConcat(SourceTokens(l) + [[OpChar(op)]], SourceTokens(r));
  }

  // ----- Counting operands -----

  /** Names less binary operators. */
  function Surplus(tokens: Tokens): int {
    if tokens == [] then 0
    else (if !IsOperator(tokens[0]) then 1 else if IsBinary(tokens[0]) then -1 else 0) + Surplus(tokens[1..])
  }

  /** Places where an operand is missing. */
  function Missing(tokens: Tokens, after: bool): nat {
    if tokens == [] then if after then 0 else 1
    else
      var t := tokens[0];
      if t == ")" || IsBinary(t) then (if after then 0 else 1) + Missing(tokens[1..], t == ")")
      else Missing(tokens[1..], t != "(")
  }

  lemma {:induction false} SurplusIsMissing(tokens: Tokens, after: bool)
    requires Separated(tokens, after) && forall t :: t in tokens ==> IsToken(t)
    ensures Surplus(tokens) + Missing(tokens, after) == if after then 0 else 1
  {
    if tokens != [] {
      var t := tokens[0];
      SurplusIsMissing(tokens[1..], t == ")" || !IsOperator(t));
      TokenKinds(t);
    }
  }

  lemma {:induction false} TokenKinds(t: string)
    requires IsToken(t)
    ensures IsOperator(t) <==> IsBinary(t) || t == "(" || t == ")"
  {
    if IsOperator(t) {
      assert t == [t[0]];
    }
  }

  // ----- Parentheses -----

  /** Closing less opening parentheses. */
  function Closing(tokens: Tokens): int {
    if tokens == [] then 0
    else (if tokens[0] == ")" then 1 else if tokens[0] == "(" then -1 else 0) + Closing(tokens[1..])
  }

  /** Every opening parenthesis is closed. */
  predicate Closed(tokens: Tokens) {
    forall i :: 0 <= i <= |tokens| ==> Closing(tokens[i..]) >= 0
  }

  lemma {:induction false} ClosingConcat(a: Tokens, b: Tokens)
    ensures Closing(a + b) == Closing(a) + Closing(b)
  {
    if a == [] {
      assert a + b == b;
    } else {
      assert (a + b)[1..] == a[1..] + b;
      ClosingConcat(a[1..], b);
    }
  }

  lemma {:induction false} ClosedSuffix(a: Tokens, b: Tokens)
    requires Closed(a + b)
    ensures Closed(b)
  {
    forall i | 0 <= i <= |b| ensures Closing(b[i..]) >= 0 {
      assert (a + b)[|a| + i..] == b[i..];
    }
  }

  lemma {:induction false} SourceIsClosed(s: Source)
    requires ObeysPriority(s)
    ensures Closing(SourceTokens(s)) == 0
  {
    match s
    case Name(n) =>
      assert !IsOperatorChar(n[0]);
      assert Closing([n][1..]) == 0;
    case Paren(i) =>
      SourceIsClosed(i);
      ClosingConcat(["("], SourceTokens(i));
      ClosingConcat(["("] + SourceTokens(i), [")"]);
      assert Closing(["("][1..]) == 0 && Closing([")"][1..]) == 0;
    case Infix(op, l, r) =>
      SourceIsClosed(l);
      SourceIsClosed(r);
      ClosingConcat(SourceTokens(l), [[OpChar(op)]]);
      ClosingConcat(SourceTokens(l) + [[OpChar(op)]], SourceTokens(r));
      assert Closing([[OpChar(op)]][1..]) == 0;
  }

  // ----- Reading a source off the tokens -----

  /** Puts an operand and an operator in front of a source. */
  function Prepend(a: Source, op: Op, s: Source): Source {
    if s.Infix? && OpPriority(s.op) <= OpPriority(op) then Infix(s.op, Prepend(a, op, s.left), s.right) else Infix(op, a, s)
  }

  lemma {:induction false} PrependObeys(a: Source, op: Op, s: Source)
    requires !a.Infix? && ObeysPriority(a) && ObeysPriority(s)
    ensures ObeysPriority(Prepend(a, op, s))
    ensures Binding(Prepend(a, op, s)) >= if Binding(s) <= OpPriority(op) then Binding(s) else OpPriority(op)
    ensures SourceTokens(Prepend(a, op, s)) == SourceTokens(a) + [[OpChar(op)]] + SourceTokens(s)
  {
    if s.Infix? && OpPriority(s.op) <= OpPriority(op) {
      PrependObeys(a, op, s.left);
    }
  }

  predicate Ends(rest: Tokens) {
    rest == [] || rest[0] == ")"
  }

  /** Closed tokens with nothing missing begin with a source, after which they end or a parenthesis closes. */
  lemma {:induction false} ReadSource(tokens: Tokens) returns (s: Source, rest: Tokens)
    requires Missing(tokens, false) == 0 && Separated(tokens, false) && Closed(tokens) && forall t :: t in tokens ==> IsToken(t)
    ensures ObeysPriority(s) && tokens == SourceTokens(s) + rest && Ends(rest)
    ensures Missing(rest, true) == 0 && Separated(rest, true) && Closed(rest)
    decreases |tokens|, 1
  {
    var t := tokens[0];
    TokenKinds(t);
    assert tokens == [t] + tokens[1..];
    ClosedSuffix([t], tokens[1..]);
    if t == "(" {
      var inner, after := ReadSource(tokens[1..]);
      OpensAndCloses(tokens, inner, after);
      s, rest := ReadFrom(Paren(inner), after[1..]);
    } else {
      s, rest := ReadFrom(Name(t), tokens[1..]);
    }
    assert tokens == SourceTokens(s) + rest;
  }

  lemma {:induction false} OpensAndCloses(tokens: Tokens, inner: Source, after: Tokens)
    requires ObeysPriority(inner) && Closed(tokens) && tokens == ["("] + (SourceTokens(inner) + after) && Ends(after)
    requires Missing(after, true) == 0 && Separated(after, true) && Closed(after)
    ensures after != [] && after[0] == ")" && tokens == SourceTokens(Paren(inner)) + after[1..]
    ensures Missing(after[1..], true) == 0 && Separated(after[1..], true) && Closed(after[1..])
  {
    if after == [] {
      assert tokens[0..] == tokens && tokens[1..] == SourceTokens(inner);
      SourceIsClosed(inner);
      assert false;
    }
    var rest := after[1..];
    assert after == [")"] + rest;
    ClosedSuffix([")"], rest);
    Regroup([], ["("], SourceTokens(inner), [")"] + rest);
    Regroup(["("], SourceTokens(inner), [")"], rest);
  }

  /** An operand has been read; an operator and more may follow. */
  lemma {:induction false} ReadFrom(a: Source, after: Tokens) returns (s: Source, rest: Tokens)
    requires !a.Infix? && ObeysPriority(a) && Missing(after, true) == 0 && Separated(after, true) && Closed(after)
    requires forall t :: t in after ==> IsToken(t)
    ensures ObeysPriority(s) && SourceTokens(a) + after == SourceTokens(s) + rest && Ends(rest)
    ensures Missing(rest, true) == 0 && Separated(rest, true) && Closed(rest)
    decreases |after|, 2
  {
    if Ends(after) {
      s, rest := a, after;
    } else {
      assert after == [after[0]] + after[1..];
      ClosedSuffix([after[0]], after[1..]);
      var more;
      more, rest := ReadSource(after[1..]);
      s := Operation(a, after, more, rest);
    }
  }

  lemma {:induction false} Operation(a: Source, after: Tokens, more: Source, rest: Tokens) returns (s: Source)
    requires !a.Infix? && ObeysPriority(a) && ObeysPriority(more)
    requires after != [] && IsBinary(after[0]) && after[1..] == SourceTokens(more) + rest
    ensures ObeysPriority(s) && SourceTokens(a) + after == SourceTokens(s) + rest
  {
    var op := if after[0] == ";" then Seq else if after[0] == "&" then And else Or;
    PrependObeys(a, op, more);
    s := Prepend(a, op, more);
    assert after == [[OpChar(op)]] + (SourceTokens(more) + rest);
    Regroup(SourceTokens(a), [[OpChar(op)]], SourceTokens(more), rest);
  }

  lemma {:induction false} Regroup(a: Tokens, b: Tokens, c: Tokens, d: Tokens)
    ensures a + (b + (c + d)) == a + b + c + d
  {
  }

  lemma {:induction false} SourceOfTokens(tokens: Tokens) returns (s: Source)
    requires Missing(tokens, false) == 0 && Separated(tokens, false) && forall t :: t in tokens ==> IsToken(t)
    requires Closed(tokens) && Closing(tokens) == 0
    ensures ObeysPriority(s) && tokens == SourceTokens(s)
  {
    var rest;
    s, rest := ReadSource(tokens);
    SourceIsClosed(s);
    ClosingConcat(SourceTokens(s), rest);
    if rest != [] {
      UnopenedParenthesis(rest);
    }
  }

  lemma {:induction false} UnopenedParenthesis(rest: Tokens)
    requires Closed(rest) && rest != [] && rest[0] == ")"
    ensures Closing(rest) > 0
  {
    assert rest[1..] == rest[1..][0..];
    assert Closing(rest[1..]) >= 0;
  }

  // ----- What the yard keeps -----

  /** Operands less operators. */
  function Weight(tokens: Tokens): int {
    if tokens == [] then 0 else (if IsOperator(tokens[0]) then -1 else 1) + Weight(tokens[1..])
  }

  lemma {:induction false} WeightConcat(a: Tokens, b: Tokens)
    ensures Weight(a + b) == Weight(a) + Weight(b)
  {
    if a == [] {
      assert a + b == b;
    } else {
      assert (a + b)[1..] == a[1..] + b;
      WeightConcat(a[1..], b);
    }
  }

  function Opened(stack: Tokens): nat {
    if stack == [] then 0 else Opened(stack[..|stack| - 1]) + if Last(stack) == "(" then 1 else 0
  }

  ghost function Total(y: Yard): int {
    Weight(y.output) + Weight(y.stack)
  }

  lemma {:induction false} WeightOfOne(t: string)
    ensures Weight([t]) == if IsOperator(t) then -1 else 1
  {
    assert [t][1..] == [];
  }

  lemma {:induction false} PopOneKeeps(y: Yard)
    requires y.stack != []
    ensures Total(PopOne(y)) == Total(y) && y.output <= PopOne(y).output
  {
    var t := Last(y.stack);
    assert y.stack == y.stack[..|y.stack| - 1] + [t];
    WeightConcat(y.stack[..|y.stack| - 1], [t]);
    WeightConcat(y.output, [t]);
  }

  lemma {:induction false} PopHigherKeeps(p: int, y: Yard)
    requires p >= 0
    ensures var z := PopHigher(p, y); Total(z) == Total(y) && y.output <= z.output && Opened(z.stack) == Opened(y.stack)
    decreases |y.stack|
  {
    if y.stack != [] && p < Priority(Last(y.stack)) {
      PopOneKeeps(y);
      PopHigherKeeps(p, PopOne(y));
    }
  }

  lemma {:induction false} PopToParenKeeps(y: Yard)
    requires PopToParen(y).Some?
    ensures var z := PopToParen(y).value;
            Total(z) == Total(y) + 1 && y.output <= z.output && Opened(z.stack) + 1 == Opened(y.stack)
    decreases |y.stack|
  {
    if Last(y.stack) == "(" {
      assert y.stack == y.stack[..|y.stack| - 1] + ["("];
      WeightConcat(y.stack[..|y.stack| - 1], ["("]);
      WeightOfOne("(");
    } else {
      PopOneKeeps(y);
      PopToParenKeeps(PopOne(y));
    }
  }

  lemma {:induction false} PopAllKeeps(y: Yard)
    ensures Weight(PopAll(y)) == Total(y) && y.output <= PopAll(y)
    decreases |y.stack|
  {
    if y.stack != [] {
      PopOneKeeps(y);
      PopAllKeeps(PopOne(y));
    }
  }

  function Effect(t: string): int {
    if !IsOperator(t) || t == ")" then 1 else -1
  }

  lemma {:induction false} ShuntTokenKeeps(y: Yard, t: string, z: Yard)
    requires ShuntToken(y, t) == Some(z)
    ensures Total(z) == Total(y) + Effect(t) && y.output <= z.output
    ensures Opened(z.stack) == Opened(y.stack) + if t == "(" then 1 else if t == ")" then -1 else 0
  {
    WeightOfOne(t);
    if !IsOperator(t) {
      WeightConcat(y.output, [t]);
    } else if t == "(" {
      WeightConcat(y.stack, [t]);
      OpenedMore(y.stack, t);
    } else if t == ")" {
      PopToParenKeeps(y);
    } else {
      var w := PopHigher(Priority(t), y);
      PopHigherKeeps(Priority(t), y);
      WeightConcat(w.stack, [t]);
      OpenedMore(w.stack, t);
    }
  }

  lemma {:induction false} OpenedMore(stack: Tokens, t: string)
    ensures Opened(stack + [t]) == Opened(stack) + if t == "(" then 1 else 0
  {
    assert (stack + [t])[..|stack + [t]| - 1] == stack;
  }

  function Effects(tokens: Tokens): int {
    if tokens == [] then 0 else Effect(tokens[0]) + Effects(tokens[1..])
  }

  lemma {:induction false} ShuntKeeps(tokens: Tokens, y: Yard, z: Yard)
    requires Shunt(tokens, y) == Some(z)
    ensures Total(z) == Total(y) + Effects(tokens) && y.output <= z.output
    ensures Opened(z.stack) == Opened(y.stack) - Closing(tokens)
    decreases |tokens|
  {
    if tokens != [] {
      var w := ShuntToken(y, tokens[0]).value;
      ShuntTokenKeeps(y, tokens[0], w);
      ShuntKeeps(tokens[1..], w, z);
    }
  }

  lemma {:induction false} ShuntPrefix(a: Tokens, b: Tokens, y: Yard)
    requires Shunt(a + b, y).Some?
    ensures Shunt(a, y).Some?
    decreases |a|
  {
    if a != [] {
      assert (a + b)[1..] == a[1..] + b;
      ShuntPrefix(a[1..], b, ShuntToken(y, a[0]).value);
    }
  }

  // ----- What mirroring does to the counts -----

  lemma {:induction false} EffectsConcat(a: Tokens, b: Tokens)
    ensures Effects(a + b) == Effects(a) + Effects(b)
  {
    if a == [] {
      assert a + b == b;
    } else {
      assert (a + b)[1..] == a[1..] + b;
      EffectsConcat(a[1..], b);
    }
  }

  lemma {:induction false} MirroredCounts(tokens: Tokens)
    requires forall t :: t in tokens ==> IsToken(t)
    ensures Effects(Mirror(tokens)) == Surplus(tokens) - Closing(tokens) && Closing(Mirror(tokens)) == -Closing(tokens)
  {
    if tokens != [] {
      var t, rest := tokens[0], tokens[1..];
      assert tokens == [t] + rest;
      MirrorConcat([t], rest);
      MirrorOfOne(t);
      MirroredCounts(rest);
      EffectsConcat(Mirror(rest), Mirror([t]));
      ClosingConcat(Mirror(rest), Mirror([t]));
      TokenKinds(t);
    }
  }

  lemma {:induction false} MirrorOfOne(t: string)
    ensures Mirror([t]) == [SwapParen(t)]
    ensures Effects([SwapParen(t)]) == Effect(SwapParen(t))
    ensures Closing([SwapParen(t)]) == if t == "(" then 1 else if t == ")" then -1 else 0
  {
    MirrorAt([t], 0);
    assert [SwapParen(t)][1..] == [];
  }

  /** What is shunted to the end is closed. */
  lemma {:induction false} ShuntedIsClosed(tokens: Tokens, y: Yard)
    requires y.stack == [] && Shunt(Mirror(tokens), y).Some? && forall t :: t in tokens ==> IsToken(t)
    ensures Closed(tokens)
  {
    forall i | 0 <= i <= |tokens| ensures Closing(tokens[i..]) >= 0 {
      assert tokens == tokens[..i] + tokens[i..];
      MirrorConcat(tokens[..i], tokens[i..]);
      ShuntPrefix(Mirror(tokens[i..]), Mirror(tokens[..i]), y);
      ShuntKeeps(Mirror(tokens[i..]), y, Shunt(Mirror(tokens[i..]), y).value);
      MirroredCounts(tokens[i..]);
    }
  }

  // ----- What the tree builder keeps -----

  /** The tokens from which a tree was built. */
  function Flatten(t: TreeNode): Tokens {
    match t
    case Nil => []
    case Node(name, _, l, r) => Flatten(r) + Flatten(l) + [name]
  }

  function FlattenAll(stack: Tokens, nodes: map<string, TreeNode>): Tokens {
    if stack == [] then [] else FlattenAll(stack[..|stack| - 1], nodes) + Flatten(NodeNamed(nodes, Last(stack)))
  }

  predicate Stacked(b: Builder) {
    forall n :: n in b.stack ==> n in b.nodes
  }

  lemma {:induction false} FlattenFrame(stack: Tokens, nodes: map<string, TreeNode>, n: string, t: TreeNode)
    requires n !in stack
    ensures FlattenAll(stack, nodes[n := t]) == FlattenAll(stack, nodes)
  {
    if stack != [] {
      FlattenFrame(stack[..|stack| - 1], nodes, n, t);
    }
  }

  lemma {:induction false} FlattenPushed(stack: Tokens, nodes: map<string, TreeNode>, n: string, t: TreeNode)
    requires n !in stack
    ensures FlattenAll(stack + [n], nodes[n := t]) == FlattenAll(stack, nodes) + Flatten(t)
  {
    assert (stack + [n])[..|stack + [n]| - 1] == stack;
    FlattenFrame(stack, nodes, n, t);
  }

  lemma {:induction false} BuildTokenKeeps(b: Builder, t: string, c: Builder)
    requires Stacked(b) && BuildToken(b, t) == Some(c)
    ensures Stacked(c) && FlattenAll(c.stack, c.nodes) == FlattenAll(b.stack, b.nodes) + [t]
    ensures |c.stack| == |b.stack| + if IsOperator(t) then -1 else 1
  {
    if !IsOperator(t) {
      FlattenPushed(b.stack, b.nodes, t, Node(t, t, Nil, Nil));
    } else {
      var n := |b.stack|;
      var below, x, y := b.stack[..n - 2], b.stack[n - 1], b.stack[n - 2];
      assert b.stack == below + [y] + [x];
      FlattenOperands(below, b.nodes, x, y, t, "(" + x + t + y + ")");
    }
  }

  lemma {:induction false} FlattenOperands(below: Tokens, nodes: map<string, TreeNode>, x: string, y: string, t: string,
                                           n: string)
    requires n !in below
    ensures FlattenAll(below + [n], nodes[n := Node(t, n, NodeNamed(nodes, x), NodeNamed(nodes, y))])
         == FlattenAll(below + [y] + [x], nodes) + [t]
  {
    FlattenPushed(below, nodes, n, Node(t, n, NodeNamed(nodes, x), NodeNamed(nodes, y)));
    FlattenLast(below + [y], x, nodes);
    FlattenLast(below, y, nodes);
  }

  lemma {:induction false} FlattenLast(stack: Tokens, n: string, nodes: map<string, TreeNode>)
    ensures FlattenAll(stack + [n], nodes) == FlattenAll(stack, nodes) + Flatten(NodeNamed(nodes, n))
  {
    assert (stack + [n])[..|stack + [n]| - 1] == stack;
  }

  lemma {:induction false} BuildKeeps(tokens: Tokens, b: Builder, c: Builder)
    requires Stacked(b) && BuildAll(tokens, b) == Some(c)
    ensures Stacked(c) && FlattenAll(c.stack, c.nodes) == FlattenAll(b.stack, b.nodes) + tokens
    ensures |c.stack| == |b.stack| + Weight(tokens)
    decreases |tokens|
  {
    if tokens != [] {
      var d := BuildToken(b, tokens[0]).value;
      BuildTokenKeeps(b, tokens[0], d);
      BuildKeeps(tokens[1..], d, c);
      assert tokens == [tokens[0]] + tokens[1..];
    }
  }

  lemma {:induction false} FlattenOfTree(e: Expr)
    ensures Flatten(ToTree(e)) == ExprPostfix(e)
  {
    match e
    case Lit(n) =>
      assert [] + [] + [n] == [n];
    case Bin(_, l, r) =>
      FlattenOfTree(l);
      FlattenOfTree(r);
  }

  /** The tree on top was built from the last tokens, and from all of them if it is alone. */
  lemma {:induction false} TreeOfTokens(postfix: Tokens, e: Expr) returns (below: Tokens)
    requires BinaryTree(Reversed(postfix)) == Some(ToTree(e))
    ensures postfix == below + ExprPostfix(e) && Weight(postfix) >= 1 && (Weight(postfix) == 1 ==> below == [])
  {
    ReversedTwice(postfix);
    var c := BuildAll(postfix, Builder([], map[])).value;
    BuildKeeps(postfix, Builder([], map[]), c);
    assert [] + postfix == postfix;
    FlattenOfTree(e);
    below := FlattenAll(c.stack[..|c.stack| - 1], c.nodes);
  }

  predicate NamesAreOperands(e: Expr) {
    match e
    case Lit(n) => !IsOperator(n)
    case Bin(_, l, r) => NamesAreOperands(l) && NamesAreOperands(r)
  }

  /** A postfix expression can be read back from its end. */
  lemma {:induction false} PostfixIsUnique(x: Tokens, e: Expr, y: Tokens, d: Expr)
    requires NamesAreOperands(e) && NamesAreOperands(d) && x + ExprPostfix(e) == y + ExprPostfix(d)
    ensures x == y && e == d
    decreases e
  {
    PostfixEnd(x, e);
    PostfixEnd(y, d);
    match e
    case Lit(_) =>
      assert x == (x + ExprPostfix(e))[..|x|] && d.Lit?;
    case Bin(op, l, r) =>
      assert d.Bin? && d.op == op;
      PostfixIsUnique(x + ExprPostfix(r), l, y + ExprPostfix(d.right), d.left);
      PostfixIsUnique(x, r, y, d.right);
  }

  lemma {:induction false} PostfixEnd(x: Tokens, e: Expr)
    ensures var p := x + ExprPostfix(e);
            p != [] && Last(p) == (if e.Lit? then e.name else [OpChar(e.op)])
            && (e.Bin? ==> p[..|p| - 1] == x + ExprPostfix(e.right) + ExprPostfix(e.left))
            && (e.Lit? ==> p[..|p| - 1] == x)
  {
    var p := x + ExprPostfix(e);
    if e.Bin? {
      assert p == x + ExprPostfix(e.right) + ExprPostfix(e.left) + [[OpChar(e.op)]];
    }
  }

  lemma {:induction false} OperandsOf(s: Source)
    requires ObeysPriority(s)
    ensures NamesAreOperands(Strip(s))
  {
    match s
    case Name(n) => assert !IsOperatorChar(n[0]);
    case Paren(i) => OperandsOf(i);
    case Infix(_, l, r) => OperandsOf(l); OperandsOf(r);
  }

  lemma {:induction false} OperandsOfExpr(e: Expr)
    requires WellFormed(e)
    ensures NamesAreOperands(e) && "" !in ExprPostfix(e)
  {
    match e
    case Lit(n) => assert !IsOperatorChar(n[0]);
    case Bin(_, l, r) => OperandsOfExpr(l); OperandsOfExpr(r);
  }

  // ----- Accepted texts -----

  function Trailing(tokens: Tokens): Tokens {
    if tokens != [] && Last(tokens) == "" then [""] else []
  }

  /** The trailing empty token is output first. */
  lemma {:induction false} AfterTrailing(tokens: Tokens)
    ensures Shunt(Mirror(tokens), Yard([], [])) == Shunt(Mirror(Core(tokens)), Yard([], Trailing(tokens)))
  {
    var core, start := Core(tokens), Yard([], Trailing(tokens));
    assert tokens == core + Trailing(tokens);
    MirrorConcat(core, Trailing(tokens));
    assert Mirror(tokens) == Trailing(tokens) + Mirror(core) by {
      if Trailing(tokens) != [] {
        MirrorOfOne("");
      }
    }
    assert Shunt(Mirror(tokens), Yard([], [])) == Shunt(Mirror(core), start) by {
      if Trailing(tokens) != [] {
        ShuntFirst("", Mirror(core), Yard([], []));
        assert [] + [""] == [""];
      } else {
        assert Trailing(tokens) + Mirror(core) == Mirror(core);
      }
    }
  }

  /** The yard on all the tokens: what it emits weighs, after the trailing empty token, what the core leaves over. */
  lemma {:induction false} YardWeighs(tokens: Tokens, postfix: Tokens)
    requires Postfix(Mirror(tokens)) == Some(postfix) && forall t :: t in Core(tokens) ==> IsToken(t)
    ensures Closed(Core(tokens)) && Trailing(tokens) <= postfix
    ensures Weight(postfix) == |Trailing(tokens)| + Surplus(Core(tokens)) - Closing(Core(tokens))
  {
    var core, start := Core(tokens), Yard([], Trailing(tokens));
    AfterTrailing(tokens);
    var z := Shunt(Mirror(core), start).value;
    ShuntKeeps(Mirror(core), start, z);
    PopAllKeeps(z);
    MirroredCounts(core);
    ShuntedIsClosed(core, start);
    WeightOfOne("");
  }

  /** An accepted text in which no operands meet leaves nothing missing and nothing open. */
  lemma {:induction false} NothingLeft(tokens: Tokens, postfix: Tokens, e: Expr)
    requires WellFormed(e) && Postfix(Mirror(tokens)) == Some(postfix)
    requires BinaryTree(Reversed(postfix)) == Some(ToTree(e))
    requires Separated(Core(tokens), false) && forall t :: t in Core(tokens) ==> IsToken(t)
    ensures Missing(Core(tokens), false) == 0 && Closed(Core(tokens)) && Closing(Core(tokens)) == 0
  {
    var core := Core(tokens);
    YardWeighs(tokens, postfix);
    SurplusIsMissing(core, false);
    var below := TreeOfTokens(postfix, e);
    assert core[0..] == core && Closing(core) >= 0;
    OperandsOfExpr(e);
    assert Weight(postfix) == 1 ==> postfix == ExprPostfix(e);
    assert Trailing(tokens) != [] ==> postfix[0] == "";
  }

  lemma {:induction false} AcceptedIsSource(text: string, e: Expr) returns (s: Source)
    requires WellFormed(e) && ParseTree(text) == Some(ToTree(e)) && !Juxtaposed(text)
    ensures ObeysPriority(s) && Text(s) == text && Strip(s) == e
  {
    var tokens := Scan(text, "");
    assert "" + "" + text == text;
    ScanShape("", "", text);
    var postfix := Postfix(Mirror(tokens)).value;
    NothingLeft(tokens, postfix, e);
    s := SourceOfTokens(Core(tokens));
    TextOfCore(text, s);
    TokensOfSource(s);
    PostfixOfSource(s);
    var below := TreeOfTokens(postfix, e);
    OperandsOf(s);
    OperandsOfExpr(e);
    PostfixIsUnique(below, e, Spurious(s), Strip(s));
  }

  lemma {:induction false} TextOfCore(text: string, s: Source)
    requires SourceTokens(s) == Core(Scan(text, ""))
    ensures Text(s) == text
  {
    var tokens := Scan(text, "");
    JoinOfScan(text, "");
    JoinOfSource(s);
    assert tokens == Core(tokens) + Trailing(tokens);
    JoinConcat(Core(tokens), Trailing(tokens));
    assert Join([""]) == "" + Join([""][1..]) == "";
    assert Join(Trailing(tokens)) == "" && "" + text == text;
    assert Join(Core(tokens)) + "" == Join(Core(tokens));
  }

  // ----- Texts that obey the priorities -----

  predicate StartsOperand(c: char) {
    c == '(' || !IsOperatorChar(c)
  }

  predicate EndsOperand(c: char) {
    c == ')' || !IsOperatorChar(c)
  }

  lemma {:induction false} JoinedTexts(a: string, b: string)
    requires !Juxtaposed(a) && !Juxtaposed(b) && (a != "" && b != "" ==> !Meet(a[|a| - 1], b[0]))
    ensures !Juxtaposed(a + b)
  {
    var text := a + b;
    forall i | 0 <= i < |text| - 1 ensures !Meet(text[i], text[i + 1]) {
      if i < |a| - 1 {
        assert !Meet(a[i], a[i + 1]);
      } else if i >= |a| {
        assert !Meet(b[i - |a|], b[i - |a| + 1]);
      }
    }
  }

  lemma {:induction false} SourceIsNotJuxtaposed(s: Source)
    requires ObeysPriority(s)
    ensures var text := Text(s);
            text != "" && !Juxtaposed(text) && StartsOperand(text[0]) && EndsOperand(text[|text| - 1])
  {
    match s
    case Name(_) =>
    case Paren(i) =>
      SourceIsNotJuxtaposed(i);
      JoinedTexts("(", Text(i));
      JoinedTexts("(" + Text(i), ")");
    case Infix(op, l, r) =>
      SourceIsNotJuxtaposed(l);
      SourceIsNotJuxtaposed(r);
      JoinedTexts(Text(l), [OpChar(op)]);
      JoinedTexts(Text(l) + [OpChar(op)], Text(r));
  }

  /** A text is parsed to the tree of a well-formed expression, and no operands meet in it, if and only if the text
      writes that expression, with the priorities and any redundant parentheses. */
  lemma {:induction false} ParsesExactly(text: string, e: Expr)
    requires WellFormed(e)
    ensures ParseTree(text) == Some(ToTree(e)) && !Juxtaposed(text)
            <==> exists s :: ObeysPriority(s) && Text(s) == text && Strip(s) == e
  {
    if s :| ObeysPriority(s) && Text(s) == text && Strip(s) == e {
      ParseSource(s);
      SourceIsNotJuxtaposed(s);
    }
    if ParseTree(text) == Some(ToTree(e)) && !Juxtaposed(text) {
      var s := AcceptedIsSource(text, e);
    }
  }

  // ----- Malformed texts that are accepted -----

  lemma {:induction false} ScanDropped(s: Source, i: Source)
    requires ObeysPriority(s) && ObeysPriority(i)
    ensures Scan(Text(s) + ("(" + (Text(i) + ")")), "") == SourceTokens(s) + ["("] + SourceTokens(i) + ([")"] + [""])
  {
    ScanSource(s, "(" + (Text(i) + ")"));
    ScanOperator(s, '(', Text(i) + ")");
    ScanClosed(i);
    Regroup(SourceTokens(s), ["("], SourceTokens(i), [")"] + [""]);
    assert SourceTokens(s) + ["("] + (SourceTokens(i) + ([")"] + [""])) == SourceTokens(s) + (["("] + (SourceTokens(i) + ([")"] + [""])));
  }

  lemma {:induction false} ScanClosed(i: Source)
    requires ObeysPriority(i)
    ensures Scan(Text(i) + ")", "") == SourceTokens(i) + ([")"] + [""])
  {
    ScanSource(i, ")");
    ScanOperator(i, ')', "");
    assert [')'] + "" == ")";
  }

  lemma {:induction false} MirrorDropped(s: Source, i: Source)
    requires ObeysPriority(s) && ObeysPriority(i)
    ensures Mirror(SourceTokens(s) + ["("] + SourceTokens(i) + ([")"] + [""])) == [""] + (MirrorTokens(Paren(i)) + MirrorTokens(s))
  {
    assert SourceTokens(s) + ["("] + SourceTokens(i) + ([")"] + [""]) == SourceTokens(s) + SourceTokens(Paren(i)) + [""];
    MirrorConcat(SourceTokens(s) + SourceTokens(Paren(i)), [""]);
    MirrorConcat(SourceTokens(s), SourceTokens(Paren(i)));
    MirrorOfSource(s);
    MirrorOfSource(Paren(i));
    MirrorOfOne("");
  }

  lemma {:induction false} PostfixDropped(s: Source, i: Source)
    requires ObeysPriority(s) && ObeysPriority(i)
    ensures Postfix([""] + (MirrorTokens(Paren(i)) + MirrorTokens(s))) == Some([""] + ExprPostfix(Strip(i)) + ExprPostfix(Strip(s)))
  {
    ShuntFirst("", MirrorTokens(Paren(i)) + MirrorTokens(s), Yard([], []));
    assert [] + [""] == [""];
    ShuntParen(i, MirrorTokens(s), Yard([], [""]));
    ShuntWhole(s, [""] + ExprPostfix(Strip(i)));
  }

  lemma {:induction false} BuildDropped(e: Expr, d: Expr)
    requires WellFormed(e) && WellFormed(d) && Leaves(e) !! Leaves(d)
    ensures BinaryTree(Reversed([""] + ExprPostfix(d) + ExprPostfix(e))) == Some(ToTree(e))
  {
    var postfix := [""] + ExprPostfix(d) + ExprPostfix(e);
    ReversedTwice(postfix);
    assert postfix == [""] + (ExprPostfix(d) + ExprPostfix(e));
    BuildBoth(e, d);
  }

  lemma {:induction false} BuildBoth(e: Expr, d: Expr)
    requires WellFormed(e) && WellFormed(d) && Leaves(e) !! Leaves(d)
    ensures var c := BuildAll([""] + (ExprPostfix(d) + ExprPostfix(e)), Builder([], map[]));
            c.Some? && c.value.stack != [] && NodeNamed(c.value.nodes, Last(c.value.stack)) == ToTree(e)
  {
    SubNamesNonEmpty(e);
    SubNamesNonEmpty(d);
    SiblingNamesDisjoint(e, d);
    BuildFirst("", ExprPostfix(d) + ExprPostfix(e), Builder([], map[]));
    BuildSpuriousToken();
    var nodes := map["" := ToTree(Lit(""))];
    BuildExpr(d, ExprPostfix(e), Builder([""], nodes));
    BuildAbove(e, [""] + [ComposedName(d)], nodes, TreeNodes(d));
  }

  lemma {:induction false} BuildAbove(e: Expr, below: Tokens, a: map<string, TreeNode>, b: map<string, TreeNode>)
    requires WellFormed(e) && SubNames(e) !! a.Keys && SubNames(e) !! b.Keys
    ensures var c := BuildAll(ExprPostfix(e), Builder(below, a + b));
            c.Some? && c.value.stack != [] && NodeNamed(c.value.nodes, Last(c.value.stack)) == ToTree(e)
  {
    BuildWhole(e, below, a + b);
  }

  lemma {:induction false} BuildSpuriousToken()
    ensures BuildToken(Builder([], map[]), "") == Some(Builder([""], map["" := ToTree(Lit(""))]))
  {
    assert [] + [""] == [""];
    assert map[]["" := ToTree(Lit(""))] == map["" := ToTree(Lit(""))];
  }

  /** What stands in parentheses right after a complete text is dropped without notice: `a(b)` is parsed as `a`. */
  lemma {:induction false} JuxtaposedIsDropped(s: Source, i: Source)
    requires ObeysPriority(s) && ObeysPriority(i) && WellFormed(Bin(Seq, Strip(s), Strip(i)))
    ensures var text := Text(s) + ("(" + (Text(i) + ")"));
            ParseTree(text) == Some(ToTree(Strip(s))) && Juxtaposed(text)
  {
    var text := Text(s) + ("(" + (Text(i) + ")"));
    SourceIsNotJuxtaposed(s);
    var k := |Text(s)| - 1;
    assert Meet(text[k], text[k + 1]);
    ScanDropped(s, i);
    MirrorDropped(s, i);
    PostfixDropped(s, i);
    BuildDropped(Strip(s), Strip(i));
  }
}
