/** Inverting leading guards into one positive condition: the text that is built, and why it means the same. */
module GuardInversion {
  import opened Prelude
  import opened InlineExpr

  // ---------------------------------------------------------------- source text

  datatype Token = LParen | RParen | Bang | OrOr | AndAnd | CmpTok(cmp: CmpOp)
                 | AtomTok(op: nat, refs: seq<Mention>) | LooseTok(op: nat, refs: seq<Mention>)

  /** The source text of an expression, as a syntax tree with explicit parentheses prints it. */
  function TextOf(e: Expr): (ts: seq<Token>)
    ensures |ts| > 0
  {
    match e
    case Atom(op, refs) => [AtomTok(op, refs)]
    case Loose(op, refs) => [LooseTok(op, refs)]
    case Paren(inner) => [LParen] + TextOf(inner) + [RParen]
    case Not(operand) => [Bang] + TextOf(operand)
    case And(l, r) => TextOf(l) + [AndAnd] + TextOf(r)
    case Or(l, r) => TextOf(l) + [OrOr] + TextOf(r)
    case Cmp(op, l, r) => TextOf(l) + [CmpTok(op)] + TextOf(r)
  }

  const PREC_OR := 1
  const PREC_AND := 2
  const PREC_ATOM := 3

  datatype NegatedExpr = NegatedExpr(text: seq<Token>, prec: int)

  function Flip(op: CmpOp): CmpOp {
    match op
    case StrictEq => StrictNe
    case StrictNe => StrictEq
    case LooseEq => LooseNe
    case LooseNe => LooseEq
    case Lt => Ge
    case Gt => Le
    case Le => Gt
    case Ge => Lt
  }

  function Strip(e: Expr): (r: Expr)
    ensures !r.Paren?
    ensures r == e || r < e
  {
    if e.Paren? then Strip(e.inner) else e
  }

  function LogicalPrec(e: Expr): int {
    match Strip(e)
    case Or(_, _) => PREC_OR
    case And(_, _) => PREC_AND
    case _ => PREC_ATOM
  }

  function Wrap(part: NegatedExpr, minPrec: int): seq<Token> {
    if part.prec < minPrec then [LParen] + part.text + [RParen] else part.text
  }

  /** Negated text of an expression, its parentheses dropped. */
  function Negate(e: Expr): NegatedExpr
    decreases e
  {
    match e
    case Paren(inner) => Negate(inner)
    case Not(operand) => NegatedExpr(TextOf(operand), LogicalPrec(operand))
    case Cmp(op, l, r) => NegatedExpr(TextOf(l) + [CmpTok(Flip(op))] + TextOf(r), PREC_ATOM)
    case And(l, r) => NegatedExpr(Negate(l).text + [OrOr] + Negate(r).text, PREC_OR)
    case Or(l, r) => NegatedExpr(Wrap(Negate(l), PREC_AND) + [AndAnd] + Wrap(Negate(r), PREC_AND), PREC_AND)
    case _ => NegatedExpr([Bang, LParen] + TextOf(e) + [RParen], PREC_ATOM)
  }

  /** Parts joined by `&&`. */
  function JoinText(guards: seq<Expr>): seq<Token>
    requires guards != []
  {
    var last := Wrap(Negate(guards[|guards| - 1]), PREC_AND);
    if |guards| == 1 then last else JoinText(guards[..|guards| - 1]) + [AndAnd] + last
  }

  function CombineGuards(guards: seq<Expr>): seq<Token>
    requires guards != []
  {
    if |guards| == 1 then Negate(guards[0]).text else JoinText(guards)
  }

  // ---------------------------------------------------------------- the tree behind the text

  /** `l || r` read as a parser reads it: to the left. */
  function JoinOr(l: Expr, r: Expr): Expr {
    if r.Or? then Or(JoinOr(l, r.left), r.right) else Or(l, r)
  }

  function JoinAnd(l: Expr, r: Expr): Expr {
    if r.And? then And(JoinAnd(l, r.left), r.right) else And(l, r)
  }

  function WrapTree(tree: Expr, prec: int): Expr {
    if prec < PREC_AND then Paren(tree) else tree
  }

  function Inverse(e: Expr): Expr
    decreases e
  {
    match e
    case Paren(inner) => Inverse(inner)
    case Not(operand) => operand
    case Cmp(op, l, r) => Cmp(Flip(op), l, r)
    case And(l, r) => JoinOr(Inverse(l), Inverse(r))
    case Or(l, r) => JoinAnd(WrapTree(Inverse(l), Negate(l).prec), WrapTree(Inverse(r), Negate(r).prec))
    case _ => Not(Paren(e))
  }

  function JoinTree(guards: seq<Expr>): Expr
    requires guards != []
  {
    var g := guards[|guards| - 1];
    var last := WrapTree(Inverse(g), Negate(g).prec);
    if |guards| == 1 then last else JoinAnd(JoinTree(guards[..|guards| - 1]), last)
  }

  function Combined(guards: seq<Expr>): Expr
    requires guards != []
  {
    if |guards| == 1 then Inverse(guards[0]) else JoinTree(guards)
  }

  lemma {:induction false} JoinOrText(l: Expr, r: Expr)
    ensures TextOf(JoinOr(l, r)) == TextOf(l) + [OrOr] + TextOf(r)
    decreases r
  {
    if r.Or? {
      JoinOrText(l, r.left);
    }
  }

  lemma {:induction false} JoinAndText(l: Expr, r: Expr)
    ensures TextOf(JoinAnd(l, r)) == TextOf(l) + [AndAnd] + TextOf(r)
    decreases r
  {
    if r.And? {
      JoinAndText(l, r.left);
    }
  }

  lemma {:induction false} InverseText(e: Expr)
    ensures Negate(e).text == TextOf(Inverse(e))
  {
    match e
    case Paren(inner) => InverseText(inner);
    case And(l, r) =>
      InverseText(l);
      InverseText(r);
      JoinOrText(Inverse(l), Inverse(r));
    case Or(l, r) =>
      InverseText(l);
      InverseText(r);
      JoinAndText(WrapTree(Inverse(l), Negate(l).prec), WrapTree(Inverse(r), Negate(r).prec));
    case _ =>
  }

  lemma {:induction false} JoinTreeText(guards: seq<Expr>)
    requires guards != []
    ensures JoinText(guards) == TextOf(JoinTree(guards))
  {
    var g := guards[|guards| - 1];
    InverseText(g);
    if |guards| > 1 {
      JoinTreeText(guards[..|guards| - 1]);
      JoinAndText(JoinTree(guards[..|guards| - 1]), WrapTree(Inverse(g), Negate(g).prec));
    }
  }

  /** The condition's text is the text of `Combined`. */
  lemma {:induction false} CombinedText(guards: seq<Expr>)
    requires guards != []
    ensures CombineGuards(guards) == TextOf(Combined(guards))
  {
    if |guards| == 1 {
      InverseText(guards[0]);
    } else {
      JoinTreeText(guards);
    }
  }

  // ---------------------------------------------------------------- meaning

  lemma {:induction false} JoinOrMeans<S>(h: Host<S>, frame: Frame, l: Expr, r: Expr, s: S)
    ensures Eval(h, frame, JoinOr(l, r), s) == Eval(h, frame, Or(l, r), s)
    decreases r
  {
    if r.Or? {
      JoinOrMeans(h, frame, l, r.left, s);
    }
  }

  lemma {:induction false} JoinAndMeans<S>(h: Host<S>, frame: Frame, l: Expr, r: Expr, s: S)
    ensures Eval(h, frame, JoinAnd(l, r), s) == Eval(h, frame, And(l, r), s)
    decreases r
  {
    if r.And? {
      JoinAndMeans(h, frame, l, r.left, s);
    }
  }

  /** What the inverse of `&&` or `||` does, in terms of the inverses of its operands. */
  lemma {:induction false} InverseOfBinary<S>(h: Host<S>, frame: Frame, e: Expr, s: S)
    requires e.And? || e.Or?
    ensures var l, r := Inverse(e.left), Inverse(e.right);
            Eval(h, frame, Inverse(e), s) ==
            if e.And? then Eval(h, frame, Or(l, r), s) else Eval(h, frame, And(l, r), s)
  {
    var l, r := Inverse(e.left), Inverse(e.right);
    if e.And? {
      JoinOrMeans(h, frame, l, r, s);
    } else {
      var left, right := WrapTree(l, Negate(e.left).prec), WrapTree(r, Negate(e.right).prec);
      JoinAndMeans(h, frame, left, right, s);
      assert Inverse(e) == JoinAnd(left, right);
      WrapMeans(h, frame, l, Negate(e.left).prec, s);
      WrapMeans(h, frame, r, Negate(e.right).prec, Eval(h, frame, l, s).1);
    }
  }

  lemma {:induction false} WrapMeans<S>(h: Host<S>, frame: Frame, tree: Expr, prec: int, s: S)
    ensures Eval(h, frame, WrapTree(tree, prec), s) == Eval(h, frame, tree, s)
  {
  }

  predicate Relational(op: CmpOp) {
    op.Lt? || op.Gt? || op.Le? || op.Ge?
  }

  /** The comparison finds its operands ordered (or throws); only relational operators ask for an order. */
  ghost predicate OrderedAt<S>(h: Host<S>, op: CmpOp, a: Value, b: Value, s: S) {
    Relational(op) ==>
      (if op.Lt? || op.Ge? then h.less(a, b, true, s).0 else h.less(b, a, false, s).0) != Unordered
  }

  /**
   Along the evaluation of `e` from `s`, every relational comparison whose operator gets flipped finds its operands
   ordered.
   */
  ghost predicate FlipsOrdered<S>(h: Host<S>, frame: Frame, e: Expr, s: S) {
    match e
    case Paren(inner) => FlipsOrdered(h, frame, inner, s)
    case And(l, r) =>
      var (v, t) := Eval(h, frame, l, s);
      FlipsOrdered(h, frame, l, s) && (v.Some? && Truthy(v.value) ==> FlipsOrdered(h, frame, r, t))
    case Or(l, r) =>
      var (v, t) := Eval(h, frame, l, s);
      FlipsOrdered(h, frame, l, s) && (v.Some? && !Truthy(v.value) ==> FlipsOrdered(h, frame, r, t))
    case Cmp(op, l, r) =>
      var (a, t) := Eval(h, frame, l, s);
      a.Some? ==>
        var (b, u) := Eval(h, frame, r, t);
        b.Some? ==> OrderedAt(h, op, a.value, b.value, u)
    case _ => true
  }

  /** A flipped operator decides the opposite, with the same effects, exactly when its operands are ordered. */
  lemma {:induction false} FlipExact<S>(h: Host<S>, op: CmpOp, a: Value, b: Value, s: S)
    ensures var (d, t) := Decide(Compare(h, op, a, b, s));
            Decide(Compare(h, Flip(op), a, b, s)) == (Opposite(d), t) <==> OrderedAt(h, op, a, b, s)
  {
  }

  /** The inverse of an expression decides the opposite, throws when it throws, and leaves the same state. */
  lemma {:induction false} InverseDecides<S>(h: Host<S>, frame: Frame, e: Expr, s: S)
    requires FlipsOrdered(h, frame, e, s)
    ensures var (d, t) := Decide(Eval(h, frame, e, s));
            Decide(Eval(h, frame, Inverse(e), s)) == (Opposite(d), t)
    decreases e
  {
    match e
    case Paren(inner) => InverseDecides(h, frame, inner, s);
    case And(l, r) =>
      var (v, t) := Eval(h, frame, l, s);
      InverseDecides(h, frame, l, s);
      if v.Some? && Truthy(v.value) {
        InverseDecides(h, frame, r, t);
      }
      BinaryDecides(h, frame, e, s);
    case Or(l, r) =>
      var (v, t) := Eval(h, frame, l, s);
      InverseDecides(h, frame, l, s);
      if v.Some? && !Truthy(v.value) {
        InverseDecides(h, frame, r, t);
      }
      BinaryDecides(h, frame, e, s);
    case Cmp(op, l, r) => FlippedDecides(h, frame, e, s);
    case _ =>
  }

  /** The inverse of `&&` or `||` decides the opposite if the inverses of its operands do. */
  lemma {:induction false} BinaryDecides<S>(h: Host<S>, frame: Frame, e: Expr, s: S)
    requires e.And? || e.Or?
    requires var (d, t) := Decide(Eval(h, frame, e.left, s));
             && Decide(Eval(h, frame, Inverse(e.left), s)) == (Opposite(d), t)
             && ((if e.And? then d.Holds? else d.Fails?) ==>
                   var (c, u) := Decide(Eval(h, frame, e.right, t));
                   Decide(Eval(h, frame, Inverse(e.right), t)) == (Opposite(c), u))
    ensures var (d, t) := Decide(Eval(h, frame, e, s));
            Decide(Eval(h, frame, Inverse(e), s)) == (Opposite(d), t)
  {
    InverseOfBinary(h, frame, e, s);
    hide Inverse;
  }

  lemma {:induction false} FlippedDecides<S>(h: Host<S>, frame: Frame, e: Expr, s: S)
    requires e.Cmp? && FlipsOrdered(h, frame, e, s)
    ensures var (d, t) := Decide(Eval(h, frame, e, s));
            Decide(Eval(h, frame, Inverse(e), s)) == (Opposite(d), t)
  {
    var (a, t) := Eval(h, frame, e.left, s);
    if a.Some? {
      var (b, u) := Eval(h, frame, e.right, t);
      if b.Some? {
        FlipExact(h, e.cmp, a.value, b.value, u);
      }
    }
  }

  /** The same along the guards, each evaluated only while no earlier one returned or threw. */
  ghost predicate AllFlipsOrdered<S>(h: Host<S>, frame: Frame, guards: seq<Expr>, s: S) {
    guards != [] ==>
      var (d, t) := Decide(Eval(h, frame, guards[0], s));
      FlipsOrdered(h, frame, guards[0], s) && (d.Fails? ==> AllFlipsOrdered(h, frame, guards[1..], t))
  }

  /** Guards in a row, as one disjunction. */
  function Disjunction(guards: seq<Expr>): Expr
    requires guards != []
  {
    if |guards| == 1 then guards[0] else Or(Disjunction(guards[..|guards| - 1]), guards[|guards| - 1])
  }

  lemma {:induction false} CombinedIsInverse(guards: seq<Expr>)
    requires guards != []
    ensures Combined(guards) == Inverse(Disjunction(guards))
    ensures |guards| > 1 ==> Negate(Disjunction(guards)).prec == PREC_AND
  {
    if |guards| > 1 {
      var init := guards[..|guards| - 1];
      CombinedIsInverse(init);
      assert JoinTree(init) == WrapTree(Inverse(Disjunction(init)), Negate(Disjunction(init)).prec);
    }
  }

  lemma {:induction false} RunGuardsSplit<S>(h: Host<S>, frame: Frame, guards: seq<Expr>, last: Expr, s: S)
    ensures var (d, t) := RunGuards(h, frame, guards, s);
            var (e, u) := Decide(Eval(h, frame, last, t));
            RunGuards(h, frame, guards + [last], s) == if d.Holds? then (Opposite(e), u) else (d, t)
  {
    var all := guards + [last];
    assert all[0] == (guards + [last])[0];
    if guards == [] {
      assert all[1..] == [];
    } else {
      assert all[0] == guards[0] && all[1..] == guards[1..] + [last];
      RunGuardsSplit(h, frame, guards[1..], last, Eval(h, frame, guards[0], s).1);
    }
  }

  lemma {:induction false} OrderedSplit<S>(h: Host<S>, frame: Frame, guards: seq<Expr>, last: Expr, s: S)
    requires AllFlipsOrdered(h, frame, guards + [last], s)
    ensures var (d, t) := RunGuards(h, frame, guards, s);
            AllFlipsOrdered(h, frame, guards, s) && (d.Holds? ==> FlipsOrdered(h, frame, last, t))
  {
    var all := guards + [last];
    if guards != [] {
      assert all[0] == guards[0] && all[1..] == guards[1..] + [last];
      if Decide(Eval(h, frame, guards[0], s)).0.Fails? {
        OrderedSplit(h, frame, guards[1..], last, Eval(h, frame, guards[0], s).1);
      }
    }
  }

  /** The statements after the guards run exactly when the disjunction fails. */
  lemma {:induction false} GuardsAreDisjunction<S>(h: Host<S>, frame: Frame, guards: seq<Expr>, s: S)
    requires guards != []
    ensures var (d, t) := Decide(Eval(h, frame, Disjunction(guards), s));
            RunGuards(h, frame, guards, s) == (Opposite(d), t)
  {
    var init, last := guards[..|guards| - 1], guards[|guards| - 1];
    assert guards == init + [last];
    RunGuardsSplit(h, frame, init, last, s);
    if init != [] {
      GuardsAreDisjunction(h, frame, init, s);
    }
  }

  lemma {:induction false} DisjunctionOrdered<S>(h: Host<S>, frame: Frame, guards: seq<Expr>, s: S)
    requires guards != [] && AllFlipsOrdered(h, frame, guards, s)
    ensures FlipsOrdered(h, frame, Disjunction(guards), s)
  {
    var init, last := guards[..|guards| - 1], guards[|guards| - 1];
    assert guards == init + [last];
    OrderedSplit(h, frame, init, last, s);
    if init != [] {
      DisjunctionOrdered(h, frame, init, s);
      GuardsAreDisjunction(h, frame, init, s);
    }
  }

  /**
   Guard inversion preserves meaning: `if (g1) return; ... if (gn) return; tail` and `if (combined) { tail }` decide
   alike, throw alike and leave the same state, for all effectful guards, whenever the flipped relational
   comparisons that are reached find their operands ordered.
   */
  lemma {:induction false} GuardInversionSound<S>(h: Host<S>, frame: Frame, guards: seq<Expr>, s: S)
    requires guards != [] && AllFlipsOrdered(h, frame, guards, s)
    ensures Decide(Eval(h, frame, Combined(guards), s)) == RunGuards(h, frame, guards, s)
  {
    CombinedIsInverse(guards);
    DisjunctionOrdered(h, frame, guards, s);
    InverseDecides(h, frame, Disjunction(guards), s);
    GuardsAreDisjunction(h, frame, guards, s);
  }
}
