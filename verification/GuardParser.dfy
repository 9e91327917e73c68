/** Reading the built condition back: the grammar of logical and comparison operators, and the round trip. */
module GuardParser {
  import opened Prelude
  import opened InlineExpr
  import opened GuardInversion

  /** Binding strength: conditional and assignment, `||`, `&&`, equality, relational, unary, primary. */
  function Level(e: Expr): nat {
    match e
    case Loose(_, _) => 0
    case Or(_, _) => 1
    case And(_, _) => 2
    case Cmp(op, _, _) => if Relational(op) then 4 else 3
    case Not(_) => 5
    case Atom(_, _) => 6
    case Paren(_) => 6
  }

  /** Trees a parser returns: binary operators nest to the left, and looser operands are parenthesized. */
  predicate Canonical(e: Expr) {
    match e
    case Loose(_, _) | Atom(_, _) => true
    case Paren(inner) => Canonical(inner)
    case Not(operand) => Canonical(operand) && Level(operand) >= 5
    case Or(l, r) => Canonical(l) && Canonical(r) && Level(l) >= 1 && Level(r) > 1
    case And(l, r) => Canonical(l) && Canonical(r) && Level(l) >= 2 && Level(r) > 2
    case Cmp(_, l, r) => Canonical(l) && Canonical(r) && Level(l) >= Level(e) && Level(r) > Level(e)
  }

  /** The level of the binary operator a token is, 0 if it is none. */
  function OperatorLevel(t: Token): nat {
    match t
    case OrOr => 1
    case AndAnd => 2
    case CmpTok(op) => if Relational(op) then 4 else 3
    case _ => 0
  }

  function Binary(t: Token, l: Expr, r: Expr): Expr
    requires OperatorLevel(t) > 0
  {
    match t
    case OrOr => Or(l, r)
    case AndAnd => And(l, r)
    case CmpTok(op) => Cmp(op, l, r)
  }

  datatype Parsed = Parsed(tree: Expr, rest: seq<Token>)

  /** Expression: a loose operation, or operators from `||` down. */
  function ParseExpr(ts: seq<Token>): (p: Option<Parsed>)
    ensures p.Some? ==> |p.value.rest| < |ts|
    decreases |ts|, 9
  {
    if ts != [] && ts[0].LooseTok? then Some(Parsed(Loose(ts[0].op, ts[0].refs), ts[1..])) else ParseLevel(1, ts)
  }

  /** Operators of `level` and above; level 5 is unary. */
  function ParseLevel(level: nat, ts: seq<Token>): (p: Option<Parsed>)
    requires 1 <= level <= 5
    ensures p.Some? ==> |p.value.rest| < |ts|
    decreases |ts|, 8 - level
  {
    if level == 5 then ParseUnary(ts)
    else
      var first := ParseLevel(level + 1, ts);
      if first.None? then None else ParseTail(level, first.value.tree, first.value.rest)
  }

  /** Further operands of a left-associative chain at `level`. */
  function ParseTail(level: nat, l: Expr, ts: seq<Token>): (p: Option<Parsed>)
    requires 1 <= level <= 4
    ensures p.Some? ==> |p.value.rest| <= |ts|
    decreases |ts|, 0
  {
    if ts == [] || OperatorLevel(ts[0]) != level then Some(Parsed(l, ts))
    else
      var next := ParseLevel(level + 1, ts[1..]);
      if next.None? then None else ParseTail(level, Binary(ts[0], l, next.value.tree), next.value.rest)
  }

  function ParseUnary(ts: seq<Token>): (p: Option<Parsed>)
    ensures p.Some? ==> |p.value.rest| < |ts|
    decreases |ts|, 1
  {
    if ts == [] then None
    else
      match ts[0]
      case AtomTok(op, refs) => Some(Parsed(Atom(op, refs), ts[1..]))
      case Bang =>
        var operand := ParseUnary(ts[1..]);
        if operand.None? then None else Some(Parsed(Not(operand.value.tree), operand.value.rest))
      case LParen =>
        var inner := ParseExpr(ts[1..]);
        if inner.None? || inner.value.rest == [] || !inner.value.rest[0].RParen? then None
        else Some(Parsed(Paren(inner.value.tree), inner.value.rest[1..]))
      case _ => None
  }

  /** The whole text as one expression. */
  function Parse(ts: seq<Token>): Option<Expr> {
    var p := ParseExpr(ts);
    if p.Some? && p.value.rest == [] then Some(p.value.tree) else None
  }

  /** No operator that binds tighter than `level` follows. */
  predicate Ends(level: nat, rest: seq<Token>) {
    rest != [] ==> OperatorLevel(rest[0]) <= level
  }

  /** At the tree's own level the parser continues with the tail; at any looser level it returns the tree. */
  lemma {:induction false} ParsesAtLevel(e: Expr, level: nat, rest: seq<Token>)
    requires Canonical(e) && 1 <= level <= 4 && level <= Level(e) && Ends(level, rest)
    ensures ParseLevel(level, TextOf(e) + rest) == ParseTail(level, e, rest)
    decreases e, 1, 9 - level
  {
    var ts := TextOf(e) + rest;
    if level < 4 && level < Level(e) {
      ParsesAtLevel(e, level + 1, rest);
    } else if level < Level(e) {
      ParsesUnary(e, rest);
      assert ParseLevel(5, ts) == ParseUnary(ts);
    } else {
      ParsesChain(e, rest);
    }
  }

  /** A binary node: its left operand parses to a chain that goes on with the operator and the right operand. */
  lemma {:induction false} ParsesChain(e: Expr, rest: seq<Token>)
    requires Canonical(e) && (e.Or? || e.And? || e.Cmp?) && Ends(Level(e), rest)
    ensures ParseLevel(Level(e), TextOf(e) + rest) == ParseTail(Level(e), e, rest)
    decreases e, 0, 0
  {
    hide ParseLevel, ParseTail, ParseUnary, TextOf;
    var level := Level(e);
    var after := [OperatorOf(e)] + TextOf(e.right) + rest;
    ChainText(e, rest);
    ParsesAtLevel(e.left, level, after);
    if level == 4 {
      ParsesUnary(e.right, rest);
      TightestLevel(after[1..]);
    } else {
      ParsesAtLevel(e.right, level + 1, rest);
      TailEnds(level + 1, e.right, rest);
    }
    TailGoesOn(level, e.left, after, e.right, rest);
  }

  /** The operator of a binary node. */
  function OperatorOf(e: Expr): (op: Token)
    requires e.Or? || e.And? || e.Cmp?
    ensures OperatorLevel(op) == Level(e) && Binary(op, e.left, e.right) == e
  {
    if e.Or? then OrOr else if e.And? then AndAnd else CmpTok(e.cmp)
  }

  lemma {:induction false} ChainText(e: Expr, rest: seq<Token>)
    requires e.Or? || e.And? || e.Cmp?
    ensures var after := [OperatorOf(e)] + TextOf(e.right) + rest;
            TextOf(e) + rest == TextOf(e.left) + after && after[1..] == TextOf(e.right) + rest
  {
  }

  lemma {:induction false} TightestLevel(ts: seq<Token>)
    ensures ParseLevel(5, ts) == ParseUnary(ts)
  {
  }

  lemma {:induction false} TailEnds(level: nat, e: Expr, rest: seq<Token>)
    requires 1 < level <= 4 && Ends(level - 1, rest)
    ensures ParseTail(level, e, rest) == Some(Parsed(e, rest))
  {
  }

  lemma {:induction false} TailGoesOn(level: nat, l: Expr, ts: seq<Token>, r: Expr, rest: seq<Token>)
    requires 1 <= level <= 4 && ts != [] && OperatorLevel(ts[0]) == level
    requires ParseLevel(level + 1, ts[1..]) == Some(Parsed(r, rest))
    ensures ParseTail(level, l, ts) == ParseTail(level, Binary(ts[0], l, r), rest)
  {
  }

  lemma {:induction false} ParsesUnary(e: Expr, rest: seq<Token>)
    requires Canonical(e) && Level(e) >= 5
    ensures ParseUnary(TextOf(e) + rest) == Some(Parsed(e, rest))
    decreases e, 0, 0
  {
    var ts := TextOf(e) + rest;
    match e
    case Atom(op, refs) => assert ts[1..] == rest;
    case Not(operand) =>
      assert ts[0] == Bang && ts[1..] == TextOf(operand) + rest;
      ParsesUnary(operand, rest);
    case Paren(inner) =>
      var after := [RParen] + rest;
      assert ts[0] == LParen && ts[1..] == TextOf(inner) + after;
      ParsesExpr(inner, after);
      assert after[1..] == rest;
  }

  lemma {:induction false} ParsesExpr(e: Expr, rest: seq<Token>)
    requires Canonical(e) && Ends(0, rest)
    ensures ParseExpr(TextOf(e) + rest) == Some(Parsed(e, rest))
    decreases e, 2, 0
  {
    var ts := TextOf(e) + rest;
    if e.Loose? {
      assert ts[1..] == rest;
    } else {
      FirstToken(e);
      assert ts[0] == TextOf(e)[0];
      ParsesAtLevel(e, 1, rest);
    }
  }

  lemma {:induction false} FirstToken(e: Expr)
    requires Canonical(e) && !e.Loose?
    ensures !TextOf(e)[0].LooseTok?
  {
    if e.Or? || e.And? || e.Cmp? {
      FirstToken(e.left);
    }
  }

  /** Printing and parsing round-trip on every tree a parser can return. */
  lemma {:induction false} RoundTrip(e: Expr)
    requires Canonical(e)
    ensures Parse(TextOf(e)) == Some(e)
  {
    assert TextOf(e) + [] == TextOf(e);
    ParsesExpr(e, []);
  }

  // ---------------------------------------------------------------- the inverted condition

  lemma {:induction false} JoinOrCanonical(l: Expr, r: Expr)
    requires Canonical(l) && Canonical(r) && Level(l) >= 1 && Level(r) >= 1
    ensures Canonical(JoinOr(l, r)) && Level(JoinOr(l, r)) == 1
    decreases r
  {
    if r.Or? {
      JoinOrCanonical(l, r.left);
    }
  }

  lemma {:induction false} JoinAndCanonical(l: Expr, r: Expr)
    requires Canonical(l) && Canonical(r) && Level(l) >= 2 && Level(r) >= 2
    ensures Canonical(JoinAnd(l, r)) && Level(JoinAnd(l, r)) == 2
    decreases r
  {
    if r.And? {
      JoinAndCanonical(l, r.left);
    }
  }

  /** The recorded precedence never claims more than the text binds. */
  lemma {:induction false} InverseCanonical(e: Expr)
    requires Canonical(e)
    ensures Canonical(Inverse(e)) && Level(Inverse(e)) >= 1
    ensures Negate(e).prec >= PREC_AND ==> Level(Inverse(e)) >= 2
  {
    match e
    case Paren(inner) => InverseCanonical(inner);
    case And(l, r) =>
      InverseCanonical(l);
      InverseCanonical(r);
      JoinOrCanonical(Inverse(l), Inverse(r));
    case Or(l, r) =>
      InverseCanonical(l);
      InverseCanonical(r);
      JoinAndCanonical(WrapTree(Inverse(l), Negate(l).prec), WrapTree(Inverse(r), Negate(r).prec));
    case _ =>
  }

  lemma {:induction false} JoinTreeCanonical(guards: seq<Expr>)
    requires guards != [] && forall i :: 0 <= i < |guards| ==> Canonical(guards[i])
    ensures Canonical(JoinTree(guards)) && Level(JoinTree(guards)) >= 2
  {
    var g := guards[|guards| - 1];
    InverseCanonical(g);
    if |guards| > 1 {
      JoinTreeCanonical(guards[..|guards| - 1]);
      JoinAndCanonical(JoinTree(guards[..|guards| - 1]), WrapTree(Inverse(g), Negate(g).prec));
    }
  }

  /** The text of the combined condition parses back to the tree whose meaning GuardInversionSound speaks of. */
  lemma {:induction false} CombinedParses(guards: seq<Expr>)
    requires guards != [] && forall i :: 0 <= i < |guards| ==> Canonical(guards[i])
    ensures Parse(CombineGuards(guards)) == Some(Combined(guards))
  {
    CombinedText(guards);
    if |guards| == 1 {
      InverseCanonical(guards[0]);
    } else {
      JoinTreeCanonical(guards);
    }
    RoundTrip(Combined(guards));
  }

  /** From source text to source text: reading the built condition decides as the guards do. */
  lemma {:induction false} InvertedTextDecides<S>(h: Host<S>, frame: Frame, guards: seq<Expr>, s: S)
    requires guards != [] && forall i :: 0 <= i < |guards| ==> Canonical(guards[i])
    requires AllFlipsOrdered(h, frame, guards, s)
    ensures Parse(CombineGuards(guards)).Some?
    ensures Decide(Eval(h, frame, Parse(CombineGuards(guards)).value, s)) == RunGuards(h, frame, guards, s)
  {
    CombinedParses(guards);
    GuardInversionSound(h, frame, guards, s);
  }
}
