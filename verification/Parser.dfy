/** From the text of a trigger expression to its binary tree: tokens, then a shunting-yard
    pass over the reversed tokens, then a tree built through a map keyed by composed names.
    `None` stands for a panic or a `log.Fatalf`. */
module Parser {
  import opened TriggerExpr
  import opened TokenStack

  type Tokens = seq<string>

  // ----- Tokens -----

  predicate IsOperator(text: string) {
    |text| == 1 && IsOperatorChar(text[0])
  }

  /** -1 stands for the `log.Fatalf` on a text that is no operator; `StackHoldsOperators` rules it out. */
  function Priority(text: string): int {
    if !IsOperator(text) then -1
    else if text[0] == ';' then 1
    else if text[0] == '|' then 2
    else if text[0] == '&' then 3
    else 0
  }

  /** What remains to be produced when `exp` is still unread and `current` is the name read so far. */
  function Scan(exp: string, current: string): Tokens {
    if exp == "" then [current]
    else if IsOperatorChar(exp[0]) then
      (if current != "" then [current] else []) + [[exp[0]]] + Scan(exp[1..], "")
    else
      Scan(exp[1..], current + [exp[0]])
  }

  method ExpressionToInfixTokens(exp: string) returns (tokens: Tokens)
    ensures tokens == Scan(exp, "")
  {
    tokens := [];
    var currentToken := "";
    for i := 0 to |exp|
      invariant tokens + Scan(exp[i..], currentToken) == Scan(exp, "")
    {
      var c := exp[i];
      assert exp[i..][0] == c && exp[i..][1..] == exp[i + 1..];
      if IsOperator([c]) {
        if currentToken != "" {
          tokens := tokens + [currentToken];
          currentToken := "";
        }
        tokens := tokens + [[c]];
      } else {
        currentToken := currentToken + [c];
      }
    }
    tokens := tokens + [currentToken];
  }

  function SourceTokens(s: Source): Tokens {
    match s
    case Name(n) => [n]
    case Paren(i) => ["("] + SourceTokens(i) + [")"]
    case Infix(op, l, r) => SourceTokens(l) + [[OpChar(op)]] + SourceTokens(r)
  }

  predicate EndsInParen(s: Source) {
    match s
    case Name(_) => false
    case Paren(_) => true
    case Infix(_, _, r) => EndsInParen(r)
  }

  /** The token still being read at the end of `s`, and the tokens before it. */
  function LastName(s: Source): string {
    match s
    case Name(n) => n
    case Paren(_) => ""
    case Infix(_, _, r) => LastName(r)
  }

  function TokensBeforeLastName(s: Source): Tokens {
    match s
    case Name(_) => []
    case Paren(_) => SourceTokens(s)
    case Infix(op, l, r) => SourceTokens(l) + [[OpChar(op)]] + TokensBeforeLastName(r)
  }

  lemma {:induction false} LastNameSplit(s: Source)
    requires ObeysPriority(s)
    ensures EndsInParen(s) <==> LastName(s) == ""
    ensures SourceTokens(s) == TokensBeforeLastName(s) + (if EndsInParen(s) then [] else [LastName(s)])
  {
    if s.Infix? {
      LastNameSplit(s.right);
    }
  }

  lemma {:induction false} ScanName(n: string, rest: string, current: string)
    requires forall i :: 0 <= i < |n| ==> !IsOperatorChar(n[i])
    ensures Scan(n + rest, current) == Scan(rest, current + n)
  {
    if n == "" {
      assert n + rest == rest && current + n == current;
    } else {
      assert (n + rest)[1..] == n[1..] + rest;
      ScanName(n[1..], rest, current + [n[0]]);
      assert current + [n[0]] + n[1..] == current + n;
    }
  }

  lemma {:induction false} ScanOperator(s: Source, c: char, rest: string)
    requires ObeysPriority(s) && IsOperatorChar(c)
    ensures TokensBeforeLastName(s) + Scan([c] + rest, LastName(s)) == SourceTokens(s) + [[c]] + Scan(rest, "")
  {
    assert ([c] + rest)[1..] == rest;
    LastNameSplit(s);
  }

  /** Reading the text of `s` leaves exactly its tokens behind, the last name still pending. */
  lemma {:induction false} ScanSource(s: Source, rest: string)
    requires ObeysPriority(s)
    ensures Scan(Text(s) + rest, "") == TokensBeforeLastName(s) + Scan(rest, LastName(s))
  {
    match s
    case Name(n) =>
      ScanName(n, rest, "");
      assert "" + n == n;
    case Paren(i) =>
      ScanSource(i, ")" + rest);
      ScanOperator(i, ')', rest);
      ScanOpening(i, rest);
    case Infix(op, l, r) =>
      ScanSource(l, [OpChar(op)] + (Text(r) + rest));
      ScanSource(r, rest);
      ScanInfix(s, rest);
  }

  lemma {:induction false} ScanInfix(s: Source, rest: string)
    requires ObeysPriority(s) && s.Infix?
    requires var tail := [OpChar(s.op)] + (Text(s.right) + rest);
             Scan(Text(s.left) + tail, "") == TokensBeforeLastName(s.left) + Scan(tail, LastName(s.left))
    requires Scan(Text(s.right) + rest, "") == TokensBeforeLastName(s.right) + Scan(rest, LastName(s.right))
    ensures Scan(Text(s) + rest, "") == TokensBeforeLastName(s) + Scan(rest, LastName(s))
  {
    var l, r, tail := s.left, s.right, Text(s.right) + rest;
    assert Text(s) + rest == Text(l) + ([OpChar(s.op)] + tail);
    ScanOperator(l, OpChar(s.op), tail);
    assert SourceTokens(l) + [[OpChar(s.op)]] + (TokensBeforeLastName(r) + Scan(rest, LastName(r)))
        == TokensBeforeLastName(s) + Scan(rest, LastName(s));
  }

  lemma {:induction false} ScanOpening(i: Source, rest: string)
    ensures Scan(Text(Paren(i)) + rest, "") == ["("] + Scan(Text(i) + (")" + rest), "")
  {
    assert Text(Paren(i)) + rest == "(" + (Text(i) + (")" + rest));
    assert ("(" + (Text(i) + (")" + rest)))[1..] == Text(i) + (")" + rest);
  }

  /** A text ending in a closing parenthesis yields one spurious empty token. */
  lemma {:induction false} TokensOfSource(s: Source)
    requires ObeysPriority(s)
    ensures Scan(Text(s), "") == SourceTokens(s) + Spurious(s)
  {
    assert Text(s) + "" == Text(s);
    ScanSource(s, "");
    LastNameSplit(s);
  }

  // ----- Reversal -----

  function Reversed<T>(s: seq<T>): seq<T> {
    if s == [] then [] else Reversed(s[1..]) + [s[0]]
  }

  lemma {:induction false} ReversedAt<T>(s: seq<T>, k: nat)
    ensures |Reversed(s)| == |s|
    ensures k < |s| ==> Reversed(s)[k] == s[|s| - 1 - k]
  {
    if s != [] {
      ReversedAt(s[1..], k);
    }
  }

  lemma {:induction false} ReversedConcat<T>(a: seq<T>, b: seq<T>)
    ensures Reversed(a + b) == Reversed(b) + Reversed(a)
  {
    if a == [] {
      assert a + b == b && Reversed(b) + [] == Reversed(b);
    } else {
      assert (a + b)[1..] == a[1..] + b;
      ReversedConcat(a[1..], b);
      assert Reversed(b) + Reversed(a[1..]) + [a[0]] == Reversed(b) + (Reversed(a[1..]) + [a[0]]);
    }
  }

  lemma {:induction false} ReversedSnoc<T>(s: seq<T>)
    requires s != []
    ensures Reversed(s) == [s[|s| - 1]] + Reversed(s[..|s| - 1])
  {
    var last := [s[|s| - 1]];
    assert s == s[..|s| - 1] + last;
    ReversedConcat(s[..|s| - 1], last);
    assert last[1..] == [];
  }

  lemma {:induction false} ReversedTwice<T>(s: seq<T>)
    ensures Reversed(Reversed(s)) == s
  {
    if s != [] {
      ReversedConcat(Reversed(s[1..]), [s[0]]);
      ReversedTwice(s[1..]);
      assert [s[0]][1..] == [];
      assert [s[0]] + s[1..] == s;
    }
  }

  method Reverse(tokens: array<string>)
    modifies tokens
    ensures tokens[..] == Reversed(old(tokens[..]))
  {
    ghost var was := tokens[..];
    var i, j := 0, tokens.Length - 1;
    while i < j
      invariant 0 <= i <= j + 2 && i + j == tokens.Length - 1
      invariant forall k :: 0 <= k < i || j < k < tokens.Length ==> tokens[k] == was[|was| - 1 - k]
      invariant forall k :: i <= k <= j ==> tokens[k] == was[k]
    {
      tokens[i], tokens[j] := tokens[j], tokens[i];
      i, j := i + 1, j - 1;
    }
    ReversedAt(was, 0);
    forall k | 0 <= k < |was|
      ensures tokens[k] == Reversed(was)[k]
    {
      ReversedAt(was, k);
    }
  }

  function SwapParen(t: string): string {
    if t == "(" then ")" else if t == ")" then "(" else t
  }

  /** The reversed tokens with the parentheses exchanged. */
  function Mirror(t: Tokens): Tokens {
    if t == [] then [] else Mirror(t[1..]) + [SwapParen(t[0])]
  }

  lemma {:induction false} MirrorAt(t: Tokens, k: nat)
    ensures |Mirror(t)| == |Reversed(t)| == |t|
    ensures k < |t| ==> Mirror(t)[k] == SwapParen(Reversed(t)[k])
  {
    if t != [] {
      MirrorAt(t[1..], k);
    }
  }

  lemma {:induction false} MirrorConcat(a: Tokens, b: Tokens)
    ensures Mirror(a + b) == Mirror(b) + Mirror(a)
  {
    if a == [] {
      assert a + b == b && Mirror(b) + [] == Mirror(b);
    } else {
      assert (a + b)[1..] == a[1..] + b;
      MirrorConcat(a[1..], b);
    }
  }

  function MirrorTokens(s: Source): Tokens {
    match s
    case Name(n) => [n]
    case Paren(i) => ["("] + MirrorTokens(i) + [")"]
    case Infix(op, l, r) => MirrorTokens(r) + [[OpChar(op)]] + MirrorTokens(l)
  }

  lemma {:induction false} MirrorOfSource(s: Source)
    requires ObeysPriority(s)
    ensures Mirror(SourceTokens(s)) == MirrorTokens(s)
  {
    match s
    case Name(n) =>
      assert n != "(" && n != ")" by { assert "("[0] == '(' && ")"[0] == ')'; }
    case Paren(i) =>
      MirrorOfSource(i);
      MirrorConcat(["("] + SourceTokens(i), [")"]);
      MirrorConcat(["("], SourceTokens(i));
    case Infix(op, l, r) =>
      MirrorOfSource(l);
      MirrorOfSource(r);
      MirrorAround(SourceTokens(l), [OpChar(op)], SourceTokens(r));
  }

  lemma {:induction false} MirrorAround(a: Tokens, t: string, b: Tokens)
    requires SwapParen(t) == t
    ensures Mirror(a + [t] + b) == Mirror(b) + [t] + Mirror(a)
  {
    MirrorConcat(a + [t], b);
    MirrorConcat(a, [t]);
    assert Mirror([t]) == [t];
  }

  // ----- Shunting yard -----

  datatype Yard = Yard(stack: Tokens, output: Tokens)

  predicate AllOperators(s: Tokens) {
    forall i :: 0 <= i < |s| ==> IsOperator(s[i])
  }

  function Last(s: Tokens): string
    requires s != []
  {
    s[|s| - 1]
  }

  function PopOne(y: Yard): Yard
    requires y.stack != []
  {
    Yard(y.stack[..|y.stack| - 1], y.output + [Last(y.stack)])
  }

  function PopHigher(p: int, y: Yard): Yard
    decreases |y.stack|
  {
    if y.stack == [] || p >= Priority(Last(y.stack)) then y else PopHigher(p, PopOne(y))
  }

  function PopToParen(y: Yard): Option<Yard>
    decreases |y.stack|
  {
    if y.stack == [] then None
    else if Last(y.stack) == "(" then Some(Yard(y.stack[..|y.stack| - 1], y.output))
    else PopToParen(PopOne(y))
  }

  function PopAll(y: Yard): Tokens
    decreases |y.stack|
  {
    if y.stack == [] then y.output else PopAll(PopOne(y))
  }

  function ShuntToken(y: Yard, token: string): Option<Yard> {
    if !IsOperator(token) then Some(Yard(y.stack, y.output + [token]))
    else if token == "(" then Some(Yard(y.stack + [token], y.output))
    else if token == ")" then PopToParen(y)
    else var z := PopHigher(Priority(token), y); Some(Yard(z.stack + [token], z.output))
  }

  function Shunt(tokens: Tokens, y: Yard): Option<Yard> {
    if tokens == [] then Some(y)
    else
      match ShuntToken(y, tokens[0])
      case None => None
      case Some(z) => Shunt(tokens[1..], z)
  }

  /** Only operators are ever stacked, so `priority` is never asked about anything else. */
  lemma {:induction false} StackHoldsOperators(y: Yard, token: string)
    requires AllOperators(y.stack)
    ensures AllOperators(PopHigher(Priority(token), y).stack)
    ensures PopToParen(y).Some? ==> AllOperators(PopToParen(y).value.stack)
    ensures ShuntToken(y, token).Some? ==> AllOperators(ShuntToken(y, token).value.stack)
    decreases |y.stack|
  {
    if y.stack != [] {
      StackHoldsOperators(PopOne(y), token);
    }
  }

  function Postfix(infix: Tokens): Option<Tokens> {
    match Shunt(infix, Yard([], []))
    case None => None
    case Some(y) => Some(PopAll(y))
  }

  method InfixToPostfix(infix: Tokens) returns (r: Option<Tokens>)
    ensures r == Postfix(infix)
  {
    var tokenStack := new Stack();
    var postfix: Tokens := [];
    for i := 0 to |infix|
      invariant fresh(tokenStack) && tokenStack.Valid()
      invariant Shunt(infix, Yard([], [])) == Shunt(infix[i..], Yard(tokenStack.Contents(), postfix))
    {
      var token := infix[i];
      assert infix[i..][0] == token && infix[i..][1..] == infix[i + 1..];
      if !IsOperator(token) {
        postfix := postfix + [token];
      } else if token == "(" {
        tokenStack.Push(token);
      } else if token == ")" {
        ghost var y := Yard(tokenStack.Contents(), postfix);
        while tokenStack.Top() != Some("(")
          invariant fresh(tokenStack) && tokenStack.Valid()
          invariant PopToParen(y) == PopToParen(Yard(tokenStack.Contents(), postfix))
          decreases |tokenStack.Contents()|
        {
          var top := tokenStack.Pop();
          if top.None? {
            return None;
          }
          postfix := postfix + [top.value];
        }
        var _ := tokenStack.Pop();
      } else {
        ghost var y := Yard(tokenStack.Contents(), postfix);
        while !tokenStack.Empty() && Priority(token) < Priority(tokenStack.Top().value)
          invariant fresh(tokenStack) && tokenStack.Valid()
          invariant PopHigher(Priority(token), y) == PopHigher(Priority(token), Yard(tokenStack.Contents(), postfix))
          decreases |tokenStack.Contents()|
        {
          var top := tokenStack.Pop();
          postfix := postfix + [top.value];
        }
        tokenStack.Push(token);
      }
    }
    ghost var y := Yard(tokenStack.Contents(), postfix);
    while !tokenStack.Empty()
      invariant fresh(tokenStack) && tokenStack.Valid()
      invariant PopAll(y) == PopAll(Yard(tokenStack.Contents(), postfix))
      decreases |tokenStack.Contents()|
    {
      var top := tokenStack.Pop();
      postfix := postfix + [top.value];
    }
    r := Some(postfix);
  }

  /** The postfix form of the mirrored expression: right operand, left operand, operator. */
  function ExprPostfix(e: Expr): Tokens {
    match e
    case Lit(n) => [n]
    case Bin(op, l, r) => ExprPostfix(r) + ExprPostfix(l) + [[OpChar(op)]]
  }

  /** The operators left on the stack after the mirrored tokens of `s`, and the output they followed. */
  function Held(s: Source): Tokens {
    if s.Infix? then [[OpChar(s.op)]] + Held(s.left) else []
  }

  function Emitted(s: Source): Tokens {
    match s
    case Name(n) => [n]
    case Paren(i) => ExprPostfix(Strip(i))
    case Infix(_, l, r) => ExprPostfix(Strip(r)) + Emitted(l)
  }

  predicate HoldsAtLeast(held: Tokens, p: int) {
    forall i :: 0 <= i < |held| ==> held[i] != "(" && Priority(held[i]) >= p
  }

  lemma {:induction false} HeldFacts(s: Source)
    requires ObeysPriority(s)
    ensures HoldsAtLeast(Held(s), Binding(s))
    ensures Emitted(s) + Reversed(Held(s)) == ExprPostfix(Strip(s))
  {
    if s.Infix? {
      HeldFacts(s.left);
      ReversedConcat([[OpChar(s.op)]], Held(s.left));
    }
  }

  lemma {:induction false} PopHigherHeld(p: int, below: Tokens, held: Tokens, out: Tokens)
    requires HoldsAtLeast(held, p + 1)
    requires below == [] || Priority(Last(below)) <= p
    ensures PopHigher(p, Yard(below + held, out)) == Yard(below, out + Reversed(held))
    decreases |held|
  {
    if held == [] {
      assert below + held == below && out + Reversed(held) == out;
    } else {
      var rest := held[..|held| - 1];
      PopHeld(below, held, out);
      PopHigherHeld(p, below, rest, out + [Last(held)]);
      ReversedSnoc(held);
      assert out + [Last(held)] + Reversed(rest) == out + ([Last(held)] + Reversed(rest));
    }
  }

  lemma {:induction false} PopHeld(below: Tokens, held: Tokens, out: Tokens)
    requires held != []
    ensures Last(below + held) == Last(held)
    ensures PopOne(Yard(below + held, out)) == Yard(below + held[..|held| - 1], out + [Last(held)])
  {
    assert (below + held)[..|below + held| - 1] == below + held[..|held| - 1];
  }

  lemma {:induction false} PopToParenHeld(below: Tokens, held: Tokens, out: Tokens)
    requires HoldsAtLeast(held, 0)
    ensures PopToParen(Yard(below + ["("] + held, out)) == Some(Yard(below, out + Reversed(held)))
    decreases |held|
  {
    if held == [] {
      var stack := below + ["("];
      assert stack + held == stack && stack[..|stack| - 1] == below && out + Reversed(held) == out;
    } else {
      var rest := held[..|held| - 1];
      PopHeld(below + ["("], held, out);
      PopToParenHeld(below, rest, out + [Last(held)]);
      ReversedSnoc(held);
      assert out + [Last(held)] + Reversed(rest) == out + ([Last(held)] + Reversed(rest));
    }
  }

  lemma {:induction false} PopAllReversed(stack: Tokens, out: Tokens)
    ensures PopAll(Yard(stack, out)) == out + Reversed(stack)
    decreases |stack|
  {
    if stack == [] {
      assert out + Reversed(stack) == out;
    } else {
      PopAllReversed(stack[..|stack| - 1], out + [Last(stack)]);
      ReversedSnoc(stack);
    }
  }

  ghost predicate Admits(stack: Tokens, s: Source) {
    stack == [] || Priority(Last(stack)) <= Binding(s)
  }

  lemma {:induction false} ShuntFirst(t: string, rest: Tokens, y: Yard)
    ensures Shunt([t] + rest, y) == match ShuntToken(y, t) case None => None case Some(z) => Shunt(rest, z)
  {
    assert ([t] + rest)[1..] == rest;
  }

  /** Shunting the mirrored tokens of `s` emits its operands and keeps its top-level operators on the stack. */
  lemma {:induction false} ShuntSource(s: Source, rest: Tokens, y: Yard)
    requires ObeysPriority(s) && Admits(y.stack, s)
    ensures Shunt(MirrorTokens(s) + rest, y) == Shunt(rest, Yard(y.stack + Held(s), y.output + Emitted(s)))
    decreases s, 1
  {
    match s
    case Name(n) =>
      assert !IsOperatorChar(n[0]);
      ShuntFirst(n, rest, y);
      assert y.stack + [] == y.stack;
    case Paren(i) =>
      ShuntParen(i, rest, y);
      assert y.stack + [] == y.stack;
    case Infix(op, l, r) =>
      ShuntInfix(s, rest, y);
      var v := Yard(y.stack + [[OpChar(op)]], y.output + ExprPostfix(Strip(r)));
      AdmitsLeft(y.stack, s);
      ShuntSource(l, rest, v);
      HeldByInfix(s, y);
  }

  lemma {:induction false} AdmitsLeft(stack: Tokens, s: Source)
    requires s.Infix? && ObeysPriority(s)
    ensures Admits(stack + [[OpChar(s.op)]], s.left)
  {
  }

  lemma {:induction false} HeldByInfix(s: Source, y: Yard)
    requires s.Infix?
    ensures y.stack + [[OpChar(s.op)]] + Held(s.left) == y.stack + Held(s)
    ensures y.output + ExprPostfix(Strip(s.right)) + Emitted(s.left) == y.output + Emitted(s)
  {
  }

  lemma {:induction false} ShuntParen(i: Source, rest: Tokens, y: Yard)
    requires ObeysPriority(i)
    ensures Shunt(MirrorTokens(Paren(i)) + rest, y) == Shunt(rest, Yard(y.stack, y.output + ExprPostfix(Strip(i))))
    decreases i, 2
  {
    var z := Yard(y.stack + ["("], y.output);
    var tail := [")"] + rest;
    assert MirrorTokens(Paren(i)) + rest == ["("] + (MirrorTokens(i) + tail);
    ShuntFirst("(", MirrorTokens(i) + tail, y);
    ShuntSource(i, tail, z);
    ShuntFirst(")", rest, Yard(z.stack + Held(i), z.output + Emitted(i)));
    ShuntClose(y, i);
  }

  /** A closing parenthesis flushes what the parenthesised source held. */
  lemma {:induction false} ShuntClose(y: Yard, i: Source)
    requires ObeysPriority(i)
    ensures ShuntToken(Yard(y.stack + ["("] + Held(i), y.output + Emitted(i)), ")")
         == Some(Yard(y.stack, y.output + ExprPostfix(Strip(i))))
  {
    var out := y.output + Emitted(i);
    HeldFacts(i);
    PopToParenHeld(y.stack, Held(i), out);
    assert out + Reversed(Held(i)) == y.output + (Emitted(i) + Reversed(Held(i)));
  }

  /** Right operand and operator of an infix source. */
  lemma {:induction false} ShuntInfix(s: Source, rest: Tokens, y: Yard)
    requires s.Infix? && ObeysPriority(s) && Admits(y.stack, s)
    ensures Shunt(MirrorTokens(s) + rest, y)
         == Shunt(MirrorTokens(s.left) + rest, Yard(y.stack + [[OpChar(s.op)]], y.output + ExprPostfix(Strip(s.right))))
    decreases s, 0
  {
    var t, after := [OpChar(s.op)], MirrorTokens(s.left) + rest;
    assert MirrorTokens(s) + rest == MirrorTokens(s.right) + ([t] + after);
    ShuntSource(s.right, [t] + after, y);
    ShuntFirst(t, after, Yard(y.stack + Held(s.right), y.output + Emitted(s.right)));
    ShuntOperator(s.op, y, s.right);
  }

  /** An operator flushes what its right operand held, and nothing below it. */
  lemma {:induction false} ShuntOperator(op: Op, y: Yard, r: Source)
    requires ObeysPriority(r) && Binding(r) > OpPriority(op)
    requires y.stack == [] || Priority(Last(y.stack)) <= OpPriority(op)
    ensures ShuntToken(Yard(y.stack + Held(r), y.output + Emitted(r)), [OpChar(op)])
         == Some(Yard(y.stack + [[OpChar(op)]], y.output + ExprPostfix(Strip(r))))
  {
    var out := y.output + Emitted(r);
    HeldFacts(r);
    PopHigherHeld(OpPriority(op), y.stack, Held(r), out);
    assert out + Reversed(Held(r)) == y.output + (Emitted(r) + Reversed(Held(r)));
    PushOperator(op, Yard(y.stack + Held(r), out));
  }

  lemma {:induction false} PushOperator(op: Op, y: Yard)
    ensures var z := PopHigher(OpPriority(op), y); ShuntToken(y, [OpChar(op)]) == Some(Yard(z.stack + [[OpChar(op)]], z.output))
  {
    assert Priority([OpChar(op)]) == OpPriority(op);
  }

  lemma {:induction false} ShuntWhole(s: Source, out: Tokens)
    requires ObeysPriority(s)
    ensures Shunt(MirrorTokens(s), Yard([], out)) == Some(Yard(Held(s), out + Emitted(s)))
    ensures PopAll(Yard(Held(s), out + Emitted(s))) == out + ExprPostfix(Strip(s))
  {
    var y := Yard([], out);
    assert Shunt(MirrorTokens(s), y) == Some(Yard(Held(s), out + Emitted(s))) by {
      assert MirrorTokens(s) + [] == MirrorTokens(s) && y.stack + Held(s) == Held(s);
      ShuntSource(s, [], y);
    }
    PopAllReversed(Held(s), out + Emitted(s));
    HeldFacts(s);
    assert out + Emitted(s) + Reversed(Held(s)) == out + (Emitted(s) + Reversed(Held(s)));
  }

  /** The spurious empty token that a closing parenthesis leaves at the end of the text. */
  function Spurious(s: Source): Tokens {
    if EndsInParen(s) then [""] else []
  }

  /** The postfix form of the mirrored tokens; a spurious empty token in front stays in front. */
  lemma {:induction false} PostfixOfSource(s: Source)
    requires ObeysPriority(s)
    ensures Postfix(Mirror(SourceTokens(s) + Spurious(s))) == Some(Spurious(s) + ExprPostfix(Strip(s)))
  {
    assert Mirror(SourceTokens(s) + Spurious(s)) == Spurious(s) + MirrorTokens(s) by {
      MirrorConcat(SourceTokens(s), Spurious(s));
      MirrorOfSource(s);
      assert Mirror(Spurious(s)) == Spurious(s);
    }
    assert Shunt(Spurious(s) + MirrorTokens(s), Yard([], [])) == Shunt(MirrorTokens(s), Yard([], Spurious(s))) by {
      if EndsInParen(s) {
        ShuntFirst("", MirrorTokens(s), Yard([], []));
        assert [] + [""] == [""];
      } else {
        assert Spurious(s) + MirrorTokens(s) == MirrorTokens(s);
      }
    }
    ShuntWhole(s, Spurious(s));
  }

  function Prefix(infix: Tokens): Option<Tokens> {
    match Postfix(Mirror(infix))
    case None => None
    case Some(p) => Some(Reversed(p))
  }

  method MirrorInPlace(infix: array<string>)
    modifies infix
    ensures infix[..] == Mirror(old(infix[..]))
  {
    ghost var was := infix[..];
    Reverse(infix);
    ghost var reversed := infix[..];
    for i := 0 to infix.Length
      invariant forall k :: 0 <= k < i ==> infix[k] == SwapParen(reversed[k])
      invariant forall k :: i <= k < infix.Length ==> infix[k] == reversed[k]
    {
      if infix[i] == "(" {
        infix[i] := ")";
      } else if infix[i] == ")" {
        infix[i] := "(";
      }
    }
    MirrorAt(was, 0);
    forall k | 0 <= k < |was|
      ensures infix[k] == Mirror(was)[k]
    {
      MirrorAt(was, k);
    }
  }

  /** Reverses the caller's tokens in place, exchanges the parentheses, converts and reverses back. */
  method InfixToPrefix(infix: array<string>) returns (r: Option<Tokens>)
    modifies infix
    ensures r == Prefix(old(infix[..]))
    ensures infix[..] == Mirror(old(infix[..]))
  {
    MirrorInPlace(infix);
    var postfix := InfixToPostfix(infix[..]);
    if postfix.None? {
      return None;
    }
    var p := postfix.value;
    var prefix := new string[|p|](i requires 0 <= i < |p| => p[i]);
    assert prefix[..] == p;
    Reverse(prefix);
    r := Some(prefix[..]);
  }

  // ----- Binary tree -----

  datatype TreeNode = Nil | Node(name: string, composedName: string, left: TreeNode, right: TreeNode)

  function ToTree(e: Expr): TreeNode {
    match e
    case Lit(n) => Node(n, n, Nil, Nil)
    case Bin(op, l, r) => Node([OpChar(op)], ComposedName(e), ToTree(l), ToTree(r))
  }

  datatype Builder = Builder(stack: Tokens, nodes: map<string, TreeNode>)

  function NodeNamed(nodes: map<string, TreeNode>, name: string): TreeNode {
    if name in nodes then nodes[name] else Nil
  }

  function BuildToken(b: Builder, token: string): Option<Builder> {
    if !IsOperator(token) then
      if token in b.nodes then None
      else Some(Builder(b.stack + [token], b.nodes[token := Node(token, token, Nil, Nil)]))
    else if |b.stack| < 2 then None
    else
      var operand1, operand2 := b.stack[|b.stack| - 1], b.stack[|b.stack| - 2];
      var composed := "(" + operand1 + token + operand2 + ")";
      if composed in b.nodes then None
      else Some(Builder(b.stack[..|b.stack| - 2] + [composed],
                        b.nodes[composed := Node(token, composed, NodeNamed(b.nodes, operand1), NodeNamed(b.nodes, operand2))]))
  }

  function BuildAll(tokens: Tokens, b: Builder): Option<Builder> {
    if tokens == [] then Some(b)
    else
      match BuildToken(b, tokens[0])
      case None => None
      case Some(c) => BuildAll(tokens[1..], c)
  }

  /** The tree of a prefix expression, read from its end. */
  function BinaryTree(prefix: Tokens): Option<TreeNode> {
    match BuildAll(Reversed(prefix), Builder([], map[]))
    case None => None
    case Some(b) => if b.stack == [] then None else Some(NodeNamed(b.nodes, Last(b.stack)))
  }

  method PrefixExpressionToBinaryTree(prefix: Tokens) returns (r: Option<TreeNode>)
    ensures r == BinaryTree(prefix)
  {
    var tokenStack := new Stack();
    var nodes: map<string, TreeNode> := map[];
    var i := |prefix| - 1;
    assert prefix[..|prefix|] == prefix;
    while i >= 0
      invariant -1 <= i < |prefix|
      invariant fresh(tokenStack) && tokenStack.Valid()
      invariant BuildAll(Reversed(prefix), Builder([], map[]))
             == BuildAll(Reversed(prefix[..i + 1]), Builder(tokenStack.Contents(), nodes))
    {
      var token := prefix[i];
      ReversedSnoc(prefix[..i + 1]);
      assert prefix[..i + 1][..i] == prefix[..i];
      BuildFirst(token, Reversed(prefix[..i]), Builder(tokenStack.Contents(), nodes));
      if !IsOperator(token) {
        tokenStack.Push(token);
        if token in nodes {
          return None;
        }
        nodes := nodes[token := Node(token, token, Nil, Nil)];
      } else {
        ghost var stack := tokenStack.Contents();
        var operand1 := tokenStack.Pop();
        var operand2 := tokenStack.Pop();
        if operand1.None? || operand2.None? {
          return None;
        }
        assert stack == tokenStack.Contents() + [operand2.value] + [operand1.value];
        assert stack[..|stack| - 2] == tokenStack.Contents();
        var composed := "(" + operand1.value + token + operand2.value + ")";
        tokenStack.Push(composed);
        var node := Node(token, composed, NodeNamed(nodes, operand1.value), NodeNamed(nodes, operand2.value));
        if composed in nodes {
          return None;
        }
        nodes := nodes[composed := node];
      }
      i := i - 1;
    }
    assert prefix[..0] == [];
    var top := tokenStack.Pop();
    if top.None? {
      return None;
    }
    r := Some(NodeNamed(nodes, top.value));
  }

  /** The map entries of all subterms. */
  function TreeNodes(e: Expr): (m: map<string, TreeNode>)
    ensures m.Keys == SubNames(e)
  {
    match e
    case Lit(n) => map[n := ToTree(e)]
    case Bin(_, l, r) => (TreeNodes(r) + TreeNodes(l))[ComposedName(e) := ToTree(e)]
  }

  lemma {:induction false} RootEntry(e: Expr)
    ensures ComposedName(e) in TreeNodes(e) && TreeNodes(e)[ComposedName(e)] == ToTree(e)
  {
  }

  lemma {:induction false} BuildFirst(t: string, rest: Tokens, b: Builder)
    ensures BuildAll([t] + rest, b) == match BuildToken(b, t) case None => None case Some(c) => BuildAll(rest, c)
  {
    assert ([t] + rest)[1..] == rest;
  }

  /** Reading the postfix form of `e` pushes its composed name and records exactly its subterms. */
  lemma {:induction false} BuildExpr(e: Expr, rest: Tokens, b: Builder)
    requires WellFormed(e) && SubNames(e) !! b.nodes.Keys
    ensures BuildAll(ExprPostfix(e) + rest, b)
         == BuildAll(rest, Builder(b.stack + [ComposedName(e)], b.nodes + TreeNodes(e)))
  {
    match e
    case Lit(n) =>
      assert !IsOperatorChar(n[0]);
      BuildFirst(n, rest, b);
      assert b.nodes[n := ToTree(e)] == b.nodes + TreeNodes(e);
    case Bin(op, l, r) =>
      SiblingNamesDisjoint(l, r);
      OwnNameFresh(e);
      var t := [OpChar(op)];
      var tail := [t] + rest;
      assert ExprPostfix(e) + rest == ExprPostfix(r) + (ExprPostfix(l) + tail);
      BuildExpr(r, ExprPostfix(l) + tail, b);
      var c := Builder(b.stack + [ComposedName(r)], b.nodes + TreeNodes(r));
      BuildExpr(l, tail, c);
      var d := Builder(c.stack + [ComposedName(l)], c.nodes + TreeNodes(l));
      BuildFirst(t, rest, d);
      BuildOperator(e, b, d);
  }

  lemma {:induction false} BuildOperator(e: Expr, b: Builder, d: Builder)
    requires WellFormed(e) && e.Bin? && SubNames(e) !! b.nodes.Keys
    requires d.stack == b.stack + [ComposedName(e.right)] + [ComposedName(e.left)]
    requires d.nodes == b.nodes + TreeNodes(e.right) + TreeNodes(e.left)
    ensures BuildToken(d, [OpChar(e.op)]) == Some(Builder(b.stack + [ComposedName(e)], b.nodes + TreeNodes(e)))
  {
    var l, r, n := e.left, e.right, ComposedName(e);
    assert d.stack[..|d.stack| - 2] == b.stack;
    assert n !in d.nodes by { OwnNameFresh(e); }
    OperandEntries(l, r, b.nodes);
    UpdateSum(b.nodes, TreeNodes(r), TreeNodes(l), n, ToTree(e));
    assert "(" + ComposedName(l) + [OpChar(e.op)] + ComposedName(r) + ")" == n;
  }

  lemma {:induction false} UpdateSum(a: map<string, TreeNode>, b: map<string, TreeNode>, c: map<string, TreeNode>,
                                     k: string, v: TreeNode)
    ensures (a + b + c)[k := v] == a + (b + c)[k := v]
  {
  }

  lemma {:induction false} OperandEntries(l: Expr, r: Expr, nodes: map<string, TreeNode>)
    requires WellFormed(l) && WellFormed(r) && Leaves(l) !! Leaves(r)
    ensures var all := nodes + TreeNodes(r) + TreeNodes(l);
            NodeNamed(all, ComposedName(l)) == ToTree(l) && NodeNamed(all, ComposedName(r)) == ToTree(r)
  {
    SiblingNamesDisjoint(l, r);
    RootEntry(l);
    RootEntry(r);
  }

  // ----- Round trip -----

  /** The whole front end, as `parseAction` chains it. */
  function ParseTree(exp: string): Option<TreeNode> {
    match Prefix(Scan(exp, ""))
    case None => None
    case Some(prefix) => BinaryTree(prefix)
  }

  method ParseExpression(exp: string) returns (r: Option<TreeNode>)
    ensures r == ParseTree(exp)
  {
    var tokens := ExpressionToInfixTokens(exp);
    var infix := new string[|tokens|](i requires 0 <= i < |tokens| => tokens[i]);
    assert infix[..] == tokens;
    var prefix := InfixToPrefix(infix);
    if prefix.None? {
      return None;
    }
    r := PrefixExpressionToBinaryTree(prefix.value);
  }

  /** Every text that obeys the priorities, with any redundant parentheses, is parsed to its tree. */
  lemma {:induction false} ParseSource(s: Source)
    requires ObeysPriority(s) && WellFormed(Strip(s))
    ensures ParseTree(Text(s)) == Some(ToTree(Strip(s)))
  {
    var e := Strip(s);
    TokensOfSource(s);
    PostfixOfSource(s);
    var postfix := Spurious(s) + ExprPostfix(e);
    ReversedTwice(postfix);
    BuildSpurious(s, ExprPostfix(e));
    SubNamesNonEmpty(e);
    BuildWhole(e, Spurious(s), SpuriousNodes(s));
  }

  function SpuriousNodes(s: Source): map<string, TreeNode> {
    if EndsInParen(s) then map["" := Node("", "", Nil, Nil)] else map[]
  }

  lemma {:induction false} BuildSpurious(s: Source, rest: Tokens)
    ensures BuildAll(Spurious(s) + rest, Builder([], map[])) == BuildAll(rest, Builder(Spurious(s), SpuriousNodes(s)))
  {
    if EndsInParen(s) {
      BuildFirst("", rest, Builder([], map[]));
      assert [] + [""] == [""];
      assert map[]["" := Node("", "", Nil, Nil)] == SpuriousNodes(s);
    } else {
      assert Spurious(s) + rest == rest;
    }
  }

  /** Whatever lies below on the stack stays there, and the tree of `e` ends on top. */
  lemma {:induction false} BuildWhole(e: Expr, below: Tokens, nodes: map<string, TreeNode>)
    requires WellFormed(e) && SubNames(e) !! nodes.Keys
    ensures var b := BuildAll(ExprPostfix(e), Builder(below, nodes));
            b.Some? && b.value.stack == below + [ComposedName(e)]
            && NodeNamed(b.value.nodes, ComposedName(e)) == ToTree(e)
  {
    assert ExprPostfix(e) + [] == ExprPostfix(e);
    BuildExpr(e, [], Builder(below, nodes));
    RootEntry(e);
  }

  /** Printing a tree with only the needed parentheses and parsing the text gives the tree back. */
  lemma {:induction false} ParseRoundTrip(e: Expr)
    requires WellFormed(e)
    ensures ParseTree(Text(Minimal(e))) == Some(ToTree(e))
  {
    MinimalIsSource(e);
    ParseSource(Minimal(e));
  }
}
