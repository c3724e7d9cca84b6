/** Trigger expressions: literals (trigger names) combined by `;`, `&` and `|`,
    the composed names that identify their nodes, and the surface syntax with
    parentheses. */
module TriggerExpr {

  datatype Option<+T> = None | Some(value: T)

  datatype Op = Seq | And | Or

  datatype Expr = Lit(name: string) | Bin(op: Op, left: Expr, right: Expr)

  predicate IsOperatorChar(c: char) {
    c == ';' || c == '&' || c == '|' || c == '(' || c == ')'
  }

  function OpChar(op: Op): char {
    match op
    case Seq => ';'
    case And => '&'
    case Or => '|'
  }

  function OpPriority(op: Op): int {
    match op
    case Seq => 1
    case Or => 2
    case And => 3
  }

  predicate ValidName(s: string) {
    s != "" && forall i :: 0 <= i < |s| ==> !IsOperatorChar(s[i])
  }

  /** The name under which a subexpression is stored: fully parenthesised text. */
  function ComposedName(e: Expr): string {
    match e
    case Lit(n) => n
    case Bin(op, l, r) => "(" + ComposedName(l) + [OpChar(op)] + ComposedName(r) + ")"
  }

  function Leaves(e: Expr): set<string> {
    match e
    case Lit(n) => {n}
    case Bin(_, l, r) => Leaves(l) + Leaves(r)
  }

  /** Valid names, and no name used twice. */
  predicate WellFormed(e: Expr) {
    match e
    case Lit(n) => ValidName(n)
    case Bin(_, l, r) => WellFormed(l) && WellFormed(r) && Leaves(l) !! Leaves(r)
  }

  predicate Subterm(t: Expr, e: Expr) {
    t == e || (e.Bin? && (Subterm(t, e.left) || Subterm(t, e.right)))
  }

  function Size(e: Expr): nat {
    match e
    case Lit(_) => 1
    case Bin(_, l, r) => 1 + Size(l) + Size(r)
  }

  lemma {:induction false} SubtermBounds(t: Expr, e: Expr)
    requires WellFormed(e) && Subterm(t, e)
    ensures WellFormed(t) && Leaves(t) <= Leaves(e)
    ensures t != e ==> Size(t) < Size(e)
  {
    if t != e {
      if Subterm(t, e.left) { SubtermBounds(t, e.left); } else { SubtermBounds(t, e.right); }
    }
  }

  lemma {:induction false} LeavesNonEmpty(e: Expr)
    ensures Leaves(e) != {}
  {
    match e
    case Lit(n) => assert n in Leaves(e);
    case Bin(_, l, r) =>
      LeavesNonEmpty(l);
      var x :| x in Leaves(l);
      assert x in Leaves(e);
  }

  /** A text that cannot extend a name: empty, or starting with an operator. */
  predicate Delimited(s: string) {
    s == "" || IsOperatorChar(s[0])
  }

  lemma {:induction false} NamePrefix(n: string, m: string, s: string, t: string)
    requires ValidName(n) && ValidName(m) && Delimited(s) && Delimited(t)
    requires n + s == m + t
    ensures n == m && s == t
  {
    var u, v := n + s, m + t;
    assert forall i :: 0 <= i < |n| ==> u[i] == n[i];
    assert forall i :: 0 <= i < |m| ==> v[i] == m[i];
    assert s != "" ==> u[|n|] == s[0];
    assert t != "" ==> v[|m|] == t[0];
    assert |n| == |m|;
    assert u[..|n|] == n && v[..|m|] == m;
    assert u[|n|..] == s && v[|m|..] == t;
  }

  /** The text of a composite node, split after its opening parenthesis and its operator. */
  lemma {:induction false} CompositeText(e: Expr, s: string)
    requires e.Bin?
    ensures var rest := ComposedName(e.right) + (")" + s);
            ComposedName(e) + s == "(" + (ComposedName(e.left) + ([OpChar(e.op)] + rest))
  {
  }

  lemma {:induction false} FirstChar(e: Expr, s: string)
    requires WellFormed(e)
    ensures ComposedName(e) + s != ""
    ensures (ComposedName(e) + s)[0] == '(' <==> e.Bin?
  {
  }

  /** Unique readability of composed names, in front of any delimited text. */
  lemma {:induction false} ComposedNamePrefix(a: Expr, b: Expr, s: string, t: string)
    requires WellFormed(a) && WellFormed(b) && Delimited(s) && Delimited(t)
    requires ComposedName(a) + s == ComposedName(b) + t
    ensures a == b && s == t
    decreases a
  {
    FirstChar(a, s);
    FirstChar(b, t);
    if a.Lit? {
      NamePrefix(a.name, b.name, s, t);
    } else {
      CompositeText(a, s);
      CompositeText(b, t);
      var s2, t2 := ComposedName(a.right) + (")" + s), ComposedName(b.right) + (")" + t);
      var s1, t1 := [OpChar(a.op)] + s2, [OpChar(b.op)] + t2;
      DropFirst('(', ComposedName(a.left) + s1, '(', ComposedName(b.left) + t1);
      ComposedNamePrefix(a.left, b.left, s1, t1);
      DropFirst(OpChar(a.op), s2, OpChar(b.op), t2);
      ComposedNamePrefix(a.right, b.right, ")" + s, ")" + t);
      DropFirst(')', s, ')', t);
    }
  }

  lemma {:induction false} DropFirst(c: char, s: string, d: char, t: string)
    requires [c] + s == [d] + t
    ensures c == d && s == t
  {
    assert ([c] + s)[0] == c && ([d] + t)[0] == d;
    assert ([c] + s)[1..] == s && ([d] + t)[1..] == t;
  }

  /** Distinct expressions have distinct composed names. */
  lemma {:induction false} ComposedNameInjective(a: Expr, b: Expr)
    requires WellFormed(a) && WellFormed(b)
    requires ComposedName(a) == ComposedName(b)
    ensures a == b
  {
    assert ComposedName(a) + "" == ComposedName(a) && ComposedName(b) + "" == ComposedName(b);
    ComposedNamePrefix(a, b, "", "");
  }

  /** The composed names of all subterms. */
  function SubNames(e: Expr): set<string> {
    match e
    case Lit(n) => {n}
    case Bin(_, l, r) => SubNames(l) + SubNames(r) + {ComposedName(e)}
  }

  lemma {:induction false} SubNameHasTerm(n: string, e: Expr) returns (t: Expr)
    requires n in SubNames(e)
    ensures Subterm(t, e) && ComposedName(t) == n
  {
    if n == ComposedName(e) {
      t := e;
    } else if n in SubNames(e.left) {
      t := SubNameHasTerm(n, e.left);
    } else {
      t := SubNameHasTerm(n, e.right);
    }
  }

  /** Sibling subexpressions share no name. */
  lemma {:induction false} SiblingNamesDisjoint(l: Expr, r: Expr)
    requires WellFormed(l) && WellFormed(r) && Leaves(l) !! Leaves(r)
    ensures SubNames(l) !! SubNames(r)
  {
    if n :| n in SubNames(l) && n in SubNames(r) {
      var a := SubNameHasTerm(n, l);
      var b := SubNameHasTerm(n, r);
      SubtermBounds(a, l);
      SubtermBounds(b, r);
      ComposedNameInjective(a, b);
      LeavesNonEmpty(a);
      assert false;
    }
  }

  /** The name of a composite is not the name of one of its proper subterms. */
  lemma {:induction false} OwnNameFresh(e: Expr)
    requires WellFormed(e) && e.Bin?
    ensures ComposedName(e) !in SubNames(e.left) + SubNames(e.right)
  {
    var n := ComposedName(e);
    if n in SubNames(e.left) + SubNames(e.right) {
      var child := if n in SubNames(e.left) then e.left else e.right;
      var t := SubNameHasTerm(n, child);
      SubtermBounds(t, child);
      ComposedNameInjective(t, e);
      assert false;
    }
  }

  lemma {:induction false} SubNamesNonEmpty(e: Expr)
    requires WellFormed(e)
    ensures "" !in SubNames(e) && ComposedName(e) in SubNames(e) && Leaves(e) <= SubNames(e)
  {
    if e.Bin? {
      SubNamesNonEmpty(e.left);
      SubNamesNonEmpty(e.right);
    }
  }

  // ----- Surface syntax -----

  /** Expressions as written, parentheses included. */
  datatype Source = Name(name: string) | Paren(inner: Source) | Infix(op: Op, left: Source, right: Source)

  function Binding(s: Source): int {
    if s.Infix? then OpPriority(s.op) else 4
  }

  /** Priority & > | > ; and left associativity, with any number of redundant parentheses. */
  predicate ObeysPriority(s: Source) {
    match s
    case Name(n) => ValidName(n)
    case Paren(i) => ObeysPriority(i)
    case Infix(op, l, r) =>
      ObeysPriority(l) && ObeysPriority(r) && Binding(l) >= OpPriority(op) && Binding(r) > OpPriority(op)
  }

  function Text(s: Source): string {
    match s
    case Name(n) => n
    case Paren(i) => "(" + Text(i) + ")"
    case Infix(op, l, r) => Text(l) + [OpChar(op)] + Text(r)
  }

  function Strip(s: Source): Expr {
    match s
    case Name(n) => Lit(n)
    case Paren(i) => Strip(i)
    case Infix(op, l, r) => Bin(op, Strip(l), Strip(r))
  }

  function Wrap(s: Source, needed: int): Source {
    if Binding(s) >= needed then s else Paren(s)
  }

  /** Prints an expression with only the parentheses that priority and associativity require. */
  function Minimal(e: Expr): Source {
    match e
    case Lit(n) => Name(n)
    case Bin(op, l, r) => Infix(op, Wrap(Minimal(l), OpPriority(op)), Wrap(Minimal(r), OpPriority(op) + 1))
  }

  lemma {:induction false} MinimalIsSource(e: Expr)
    requires WellFormed(e)
    ensures ObeysPriority(Minimal(e)) && Strip(Minimal(e)) == e
  {
    if e.Bin? {
      MinimalIsSource(e.left);
      MinimalIsSource(e.right);
    }
  }

  function SameBinding(e: Expr): int {
    if e.Bin? then OpPriority(e.op) else 4
  }

  /** No source for the same expression is shorter than the minimal one. */
  lemma {:induction false} MinimalIsShortest(s: Source)
    requires ObeysPriority(s)
    ensures |Text(Minimal(Strip(s)))| <= |Text(s)|
    ensures Binding(s) != SameBinding(Strip(s)) ==> |Text(Minimal(Strip(s)))| + 2 <= |Text(s)|
    ensures Binding(Minimal(Strip(s))) == SameBinding(Strip(s))
  {
    match s
    case Name(_) =>
    case Paren(i) => MinimalIsShortest(i);
    case Infix(op, l, r) => MinimalIsShortest(l); MinimalIsShortest(r);
  }
}
