/**
 Runs that tell a captured name from the name it stands for.

 A recording host writes down what every operation reads. Its answers come from a script and do not depend on what is
 read, so two programs that differ in names alone take the same course on it, and a script can lead them to any
 mention. If that mention reads different values on the two sides, their records part for good.
 */
module CaptureRuns {
  import opened Prelude
  import opened InlineExpr
  import opened GuardInversion
  import opened FlipExactness
  import opened BodyScope

  /** `next` numbers the objects that operations return. */
  datatype Trace = Trace(script: seq<bool>, next: nat, log: seq<seq<Read>>)

  /** A new object, unless the script says false. */
  function Answer(read: seq<Read>, s: Trace): (Option<Value>, Trace) {
    (Some(if s.script == [] || s.script[0] then Object(s.next) else Bool(false)),
     Trace(if s.script == [] then [] else s.script[1..], s.next + 1, s.log + [read]))
  }

  function TruthLess(a: Value, b: Value): Ordering {
    if !Truthy(a) && Truthy(b) then Less else NotLess
  }

  function Recorder(): Host<Trace> {
    Host((op, read, s) => Answer(read, s),
         (a, b, first, s) => (TruthLess(a, b), s),
         (a, b, s) => (Some(Truthy(a) == Truthy(b)), s))
  }

  lemma {:induction false} RecorderOrders()
    ensures TotallyOrders(Recorder())
  {
  }

  /** The same course so far. */
  predicate Alike(s: Trace, t: Trace) {
    s.script == t.script && s.next == t.next && |s.log| == |t.log|
  }

  predicate Diverged(s: Trace, t: Trace) {
    exists i :: 0 <= i < |s.log| && i < |t.log| && s.log[i] != t.log[i]
  }

  /** `s` and `t` lead to `u` and `v` alike, and do not come together again. */
  predicate Onward(s: Trace, t: Trace, u: Trace, v: Trace) {
    Alike(u, v) && s.log <= u.log && t.log <= v.log && s.next <= u.next && (Diverged(s, t) ==> Diverged(u, v))
  }

  lemma {:induction false} OnwardGrows(s: Trace, t: Trace, u: Trace, v: Trace)
    requires Alike(u, v) && s.log <= u.log && t.log <= v.log && s.next <= u.next
    ensures Onward(s, t, u, v)
  {
    if Diverged(s, t) {
      var i :| 0 <= i < |s.log| && i < |t.log| && s.log[i] != t.log[i];
      assert u.log[i] == s.log[i] && v.log[i] == t.log[i];
    }
  }

  lemma {:induction false} OnwardOn(s: Trace, t: Trace, u: Trace, v: Trace, w: Trace, x: Trace)
    requires Onward(s, t, u, v) && Onward(u, v, w, x)
    ensures Onward(s, t, w, x)
  {
  }

  lemma {:induction false} AnswersAlike(r: seq<Read>, q: seq<Read>, s: Trace, t: Trace)
    requires Alike(s, t)
    ensures Answer(r, s).0 == Answer(q, t).0 && Onward(s, t, Answer(r, s).1, Answer(q, t).1)
    ensures r != q ==> Diverged(Answer(r, s).1, Answer(q, t).1)
  {
    OnwardGrows(s, t, Answer(r, s).1, Answer(q, t).1);
    if r != q {
      assert Answer(r, s).1.log[|s.log|] == r && Answer(q, t).1.log[|t.log|] == q;
    }
  }

  // ---------------------------------------------------------------- expressions

  /** Comparisons always have a result, which does not depend on the state, and leave it alone. */
  lemma {:induction false} ComparesAlike(op: CmpOp, a: Value, b: Value, s: Trace, t: Trace)
    ensures var (v, u), (w, x) := Compare(Recorder(), op, a, b, s), Compare(Recorder(), op, a, b, t);
            v == w && v.Some? && u == s && x == t
  {
  }

  lemma {:induction false} EvalAlike(f: Frame, g: Frame, sub: Subst, e: Expr, s: Trace, t: Trace)
    requires Alike(s, t)
    ensures var (v, u), (w, x) := Eval(Recorder(), f, e, s), Eval(Recorder(), g, SubstExpr(sub, e), t);
            v == w && v.Some? && Onward(s, t, u, x)
    decreases e, 2
  {
    hide Alike, Onward, SeeAll, SubstRefs, Compare;
    match e
    case Atom(_, refs) => AnswersAlike(SeeAll(f, refs), SeeAll(g, SubstRefs(sub, refs)), s, t);
    case Loose(_, refs) => AnswersAlike(SeeAll(f, refs), SeeAll(g, SubstRefs(sub, refs)), s, t);
    case Paren(inner) => EvalAlike(f, g, sub, inner, s, t);
    case Not(operand) => EvalAlike(f, g, sub, operand, s, t);
    case And(l, r) => BothAlike(f, g, sub, e, l, r, s, t);
    case Or(l, r) => BothAlike(f, g, sub, e, l, r, s, t);
    case Cmp(op, l, r) => ComparedAlike(f, g, sub, op, l, r, s, t);
  }

  lemma {:induction false} ComparedAlike(f: Frame, g: Frame, sub: Subst, op: CmpOp, l: Expr, r: Expr, s: Trace, t: Trace)
    requires Alike(s, t)
    ensures var e := Cmp(op, l, r);
            var (v, u), (w, x) := Eval(Recorder(), f, e, s), Eval(Recorder(), g, SubstExpr(sub, e), t);
            v == w && v.Some? && Onward(s, t, u, x)
    decreases Cmp(op, l, r), 1
  {
    hide Alike, Onward, SeeAll, SubstRefs, Compare;
    BothAlike(f, g, sub, Cmp(op, l, r), l, r, s, t);
    var (a, u) := Eval(Recorder(), f, l, s);
    var x := Eval(Recorder(), g, SubstExpr(sub, l), t).1;
    var (b, c) := Eval(Recorder(), f, r, u);
    var d := Eval(Recorder(), g, SubstExpr(sub, r), x).1;
    ComparesAlike(op, a.value, b.value, c, d);
  }

  lemma {:induction false} BothAlike(f: Frame, g: Frame, sub: Subst, e: Expr, l: Expr, r: Expr, s: Trace, t: Trace)
    requires Alike(s, t) && l < e && r < e
    ensures var (v, u), (w, x) := Eval(Recorder(), f, l, s), Eval(Recorder(), g, SubstExpr(sub, l), t);
            && v == w && v.Some? && Onward(s, t, u, x)
            && var (a, c), (b, d) := Eval(Recorder(), f, r, u), Eval(Recorder(), g, SubstExpr(sub, r), x);
            a == b && a.Some? && Onward(u, x, c, d) && Onward(s, t, c, d)
    decreases e, 0
  {
    EvalAlike(f, g, sub, l, s, t);
    var u, x := Eval(Recorder(), f, l, s).1, Eval(Recorder(), g, SubstExpr(sub, l), t).1;
    EvalAlike(f, g, sub, r, u, x);
    OnwardOn(s, t, u, x, Eval(Recorder(), f, r, u).1, Eval(Recorder(), g, SubstExpr(sub, r), x).1);
  }

  /** Truthiness of operands for which a comparison gives the wanted result. */
  function Sides(op: CmpOp, want: bool): (bool, bool) {
    match op
    case StrictEq | LooseEq => (false, !want)
    case StrictNe | LooseNe => (false, want)
    case Lt => (false, want)
    case Ge => (false, !want)
    case Gt => (want, false)
    case Le => (!want, false)
  }

  /** A script on which the expression is true, or false. */
  function Plays(e: Expr, want: bool): seq<bool> {
    match e
    case Atom(_, _) | Loose(_, _) => [want]
    case Paren(inner) => Plays(inner, want)
    case Not(operand) => Plays(operand, !want)
    case And(l, r) => if want then Plays(l, true) + Plays(r, true) else Plays(l, false)
    case Or(l, r) => if want then Plays(l, true) else Plays(l, false) + Plays(r, false)
    case Cmp(op, l, r) => Plays(l, Sides(op, want).0) + Plays(r, Sides(op, want).1)
  }

  /** The result is as wanted, the script used up. */
  predicate Played(r: (Option<Value>, Trace), want: bool, rest: seq<bool>) {
    r.0.Some? && Truthy(r.0.value) == want && (!want ==> r.0.value == Bool(false)) && r.1.script == rest
  }

  lemma {:induction false} PlaysRun(f: Frame, e: Expr, want: bool, rest: seq<bool>, s: Trace)
    requires s.script == Plays(e, want) + rest
    ensures Played(Eval(Recorder(), f, e, s), want, rest)
    decreases e, 1
  {
    match e
    case Paren(inner) => PlaysRun(f, inner, want, rest, s);
    case Not(operand) => PlaysRun(f, operand, !want, rest, s);
    case And(l, r) =>
      if want {
        PlaysBoth(f, e, l, true, r, true, rest, s);
      } else {
        PlaysRun(f, l, false, rest, s);
      }
    case Or(l, r) =>
      if want {
        PlaysRun(f, l, true, rest, s);
      } else {
        PlaysBoth(f, e, l, false, r, false, rest, s);
      }
    case Cmp(op, l, r) =>
      PlaysBoth(f, e, l, Sides(op, want).0, r, Sides(op, want).1, rest, s);
      PlayedCompare(f, e, want, rest, s);
    case _ =>
  }

  lemma {:induction false} PlayedCompare(f: Frame, e: Expr, want: bool, rest: seq<bool>, s: Trace)
    requires e.Cmp?
    requires Played(Eval(Recorder(), f, e.left, s), Sides(e.cmp, want).0, Plays(e.right, Sides(e.cmp, want).1) + rest)
    requires Played(Eval(Recorder(), f, e.right, Eval(Recorder(), f, e.left, s).1), Sides(e.cmp, want).1, rest)
    ensures Played(Eval(Recorder(), f, e, s), want, rest)
  {
  }

  lemma {:induction false} PlaysBoth(f: Frame, e: Expr, l: Expr, a: bool, r: Expr, b: bool, rest: seq<bool>, s: Trace)
    requires l < e && r < e && s.script == Plays(l, a) + Plays(r, b) + rest
    ensures Played(Eval(Recorder(), f, l, s), a, Plays(r, b) + rest)
    ensures Played(Eval(Recorder(), f, r, Eval(Recorder(), f, l, s).1), b, rest)
    decreases e, 0
  {
    assert s.script == Plays(l, a) + (Plays(r, b) + rest);
    PlaysRun(f, l, a, Plays(r, b) + rest, s);
    PlaysRun(f, r, b, rest, Eval(Recorder(), f, l, s).1);
  }

  /** Which operations to look for, by what they mention. */
  type Goal = seq<Mention> -> bool

  /** Some operation in the expression is one to look for. */
  predicate Meets(e: Expr, goal: Goal) {
    match e
    case Atom(_, refs) => goal(refs)
    case Loose(_, refs) => goal(refs)
    case Paren(inner) => Meets(inner, goal)
    case Not(operand) => Meets(operand, goal)
    case And(l, r) => Meets(l, goal) || Meets(r, goal)
    case Or(l, r) => Meets(l, goal) || Meets(r, goal)
    case Cmp(_, l, r) => Meets(l, goal) || Meets(r, goal)
  }

  predicate MeetsAny(guards: seq<Expr>, goal: Goal) {
    guards != [] && (Meets(guards[0], goal) || MeetsAny(guards[1..], goal))
  }

  function Mentioning(x: string): Goal {
    (refs: seq<Mention>) => x in NamesOf(refs)
  }

  /** An operation with a scope of its own that binds what a name in it is replaced by. */
  function Hiding(sub: Subst): Goal {
    (refs: seq<Mention>) => !ClearRefs(sub, refs)
  }

  lemma {:induction false} MentioningMeets(e: Expr, x: string)
    ensures x in NamesIn(e) <==> Meets(e, Mentioning(x))
  {
    match e
    case Paren(inner) => MentioningMeets(inner, x);
    case Not(operand) => MentioningMeets(operand, x);
    case And(l, r) => MentioningMeets(l, x); MentioningMeets(r, x);
    case Or(l, r) => MentioningMeets(l, x); MentioningMeets(r, x);
    case Cmp(_, l, r) => MentioningMeets(l, x); MentioningMeets(r, x);
    case _ =>
  }

  lemma {:induction false} HidingMeets(e: Expr, sub: Subst)
    ensures !ClearExpr(sub, e) <==> Meets(e, Hiding(sub))
  {
    match e
    case Paren(inner) => HidingMeets(inner, sub);
    case Not(operand) => HidingMeets(operand, sub);
    case And(l, r) => HidingMeets(l, sub); HidingMeets(r, sub);
    case Or(l, r) => HidingMeets(l, sub); HidingMeets(r, sub);
    case Cmp(_, l, r) => HidingMeets(l, sub); HidingMeets(r, sub);
    case _ =>
  }

  lemma {:induction false} GuardsMention(guards: seq<Expr>, x: string)
    ensures x in NamesInAll(guards) <==> MeetsAny(guards, Mentioning(x))
  {
    if guards != [] {
      MentioningMeets(guards[0], x);
      GuardsMention(guards[1..], x);
    }
  }

  lemma {:induction false} GuardsHide(guards: seq<Expr>, sub: Subst)
    ensures !ClearGuards(sub, guards) <==> MeetsAny(guards, Hiding(sub))
  {
    if guards != [] {
      HidingMeets(guards[0], sub);
      GuardsHide(guards[1..], sub);
    }
  }

  /** A script that leads to an operation to look for. */
  function ReachExpr(e: Expr, goal: Goal): seq<bool> {
    match e
    case Atom(_, _) | Loose(_, _) => []
    case Paren(inner) => ReachExpr(inner, goal)
    case Not(operand) => ReachExpr(operand, goal)
    case And(l, r) => if Meets(l, goal) then ReachExpr(l, goal) else Plays(l, true) + ReachExpr(r, goal)
    case Or(l, r) => if Meets(l, goal) then ReachExpr(l, goal) else Plays(l, false) + ReachExpr(r, goal)
    case Cmp(_, l, r) => if Meets(l, goal) then ReachExpr(l, goal) else Plays(l, true) + ReachExpr(r, goal)
  }

  /** `x` reads one thing outside, and what replaces it another thing inside. */
  predicate Differs(f: Frame, g: Frame, sub: Subst, x: string) {
    Lookup(f, Ref(x)) != Lookup(g, SubstRef(sub, Ref(x)))
  }

  lemma {:induction false} RefsDiffer(f: Frame, g: Frame, sub: Subst, x: string, refs: seq<Mention>)
    requires Differs(f, g, sub, x) && x in NamesOf(refs)
    ensures SeeAll(f, refs) != SeeAll(g, SubstRefs(sub, refs))
  {
    var i :| 0 <= i < |refs| && refs[i].o.Ref? && refs[i].Free() && refs[i].o.name == x;
    assert refs[i].o == Ref(x);
    assert SeeAll(f, refs)[i] != SeeAll(g, SubstRefs(sub, refs))[i];
  }

  lemma {:induction false} HiddenDiffers(f: Frame, g: Frame, sub: Subst, refs: seq<Mention>)
    requires !ClearRefs(sub, refs)
    ensures SeeAll(f, refs) != SeeAll(g, SubstRefs(sub, refs))
  {
    var i :| 0 <= i < |refs| && refs[i].Free() && !SubstMention(sub, refs[i]).Free();
    assert SeeAll(f, refs)[i] != SeeAll(g, SubstRefs(sub, refs))[i];
  }

  /** Every operation to look for finds something else once names are replaced. */
  ghost predicate Tells(f: Frame, g: Frame, sub: Subst, goal: Goal) {
    forall refs :: goal(refs) ==> SeeAll(f, refs) != SeeAll(g, SubstRefs(sub, refs))
  }

  lemma {:induction false} MentioningTells(f: Frame, g: Frame, sub: Subst, x: string)
    requires Differs(f, g, sub, x)
    ensures Tells(f, g, sub, Mentioning(x))
  {
    forall refs | Mentioning(x)(refs) ensures SeeAll(f, refs) != SeeAll(g, SubstRefs(sub, refs)) {
      RefsDiffer(f, g, sub, x, refs);
    }
  }

  lemma {:induction false} HidingTells(f: Frame, g: Frame, sub: Subst)
    ensures Tells(f, g, sub, Hiding(sub))
  {
    forall refs | Hiding(sub)(refs) ensures SeeAll(f, refs) != SeeAll(g, SubstRefs(sub, refs)) {
      HiddenDiffers(f, g, sub, refs);
    }
  }

  lemma {:induction false} ExprReaches(f: Frame, g: Frame, sub: Subst, e: Expr, goal: Goal, rest: seq<bool>, s: Trace, t: Trace)
    requires Alike(s, t) && Tells(f, g, sub, goal) && Meets(e, goal) && s.script == ReachExpr(e, goal) + rest
    ensures Diverged(Eval(Recorder(), f, e, s).1, Eval(Recorder(), g, SubstExpr(sub, e), t).1)
    decreases e, 1
  {
    hide Alike, Diverged, SeeAll, SubstRefs, Plays, Compare;
    match e
    case Atom(_, refs) => AnswersAlike(SeeAll(f, refs), SeeAll(g, SubstRefs(sub, refs)), s, t);
    case Loose(_, refs) => AnswersAlike(SeeAll(f, refs), SeeAll(g, SubstRefs(sub, refs)), s, t);
    case Paren(inner) => ExprReaches(f, g, sub, inner, goal, rest, s, t);
    case Not(operand) => ExprReaches(f, g, sub, operand, goal, rest, s, t);
    case And(l, r) => OperandReaches(f, g, sub, e, l, true, r, goal, rest, s, t);
    case Or(l, r) => OperandReaches(f, g, sub, e, l, false, r, goal, rest, s, t);
    case Cmp(op, l, r) =>
      OperandReaches(f, g, sub, e, l, true, r, goal, rest, s, t);
      BothAlike(f, g, sub, e, l, r, s, t);
      var (a, u) := Eval(Recorder(), f, l, s);
      var y := Eval(Recorder(), g, SubstExpr(sub, l), t).1;
      ComparesAlike(op, a.value, Eval(Recorder(), f, r, u).0.value, Eval(Recorder(), f, r, u).1,
                    Eval(Recorder(), g, SubstExpr(sub, r), y).1);
  }

  /** Through the left operand, or past it with the value that makes the right one count. */
  lemma {:induction false} OperandReaches(f: Frame, g: Frame, sub: Subst, e: Expr, l: Expr, want: bool, r: Expr, goal: Goal,
                                          rest: seq<bool>, s: Trace, t: Trace)
    requires l < e && r < e && Alike(s, t) && Tells(f, g, sub, goal) && (Meets(l, goal) || Meets(r, goal))
    requires s.script == (if Meets(l, goal) then ReachExpr(l, goal) else Plays(l, want) + ReachExpr(r, goal)) + rest
    ensures var (v, u), (w, y) := Eval(Recorder(), f, l, s), Eval(Recorder(), g, SubstExpr(sub, l), t);
            && v == w && v.Some?
            && (Meets(l, goal) ==> Diverged(u, y))
            && (!Meets(l, goal) ==> Truthy(v.value) == want)
            && Diverged(Eval(Recorder(), f, r, u).1, Eval(Recorder(), g, SubstExpr(sub, r), y).1)
    decreases e, 0
  {
    hide Tells, Diverged, Plays, ReachExpr, Meets, SubstExpr, Eval;
    BothAlike(f, g, sub, e, l, r, s, t);
    if Meets(l, goal) {
      ExprReaches(f, g, sub, l, goal, rest, s, t);
    } else {
      assert s.script == Plays(l, want) + (ReachExpr(r, goal) + rest);
      PlaysRun(f, l, want, ReachExpr(r, goal) + rest, s);
      ExprReaches(f, g, sub, r, goal, rest, Eval(Recorder(), f, l, s).1, Eval(Recorder(), g, SubstExpr(sub, l), t).1);
    }
  }

  // ---------------------------------------------------------------- guards

  lemma {:induction false} GuardsAlike(f: Frame, g: Frame, sub: Subst, guards: seq<Expr>, s: Trace, t: Trace)
    requires Alike(s, t)
    ensures var (d, u), (c, x) := RunGuards(Recorder(), f, guards, s), RunGuards(Recorder(), g, SubstGuards(sub, guards), t);
            d == c && Onward(s, t, u, x)
  {
    if guards == [] {
      OnwardGrows(s, t, s, t);
    } else {
      EvalAlike(f, g, sub, guards[0], s, t);
      var u, x := Eval(Recorder(), f, guards[0], s).1, Eval(Recorder(), g, SubstExpr(sub, guards[0]), t).1;
      GuardsAlike(f, g, sub, guards[1..], u, x);
      OnwardOn(s, t, u, x, RunGuards(Recorder(), f, guards[1..], u).1,
               RunGuards(Recorder(), g, SubstGuards(sub, guards[1..]), x).1);
    }
  }

  /** A script on which no guard holds. */
  function PassGuards(guards: seq<Expr>): seq<bool> {
    if guards == [] then [] else Plays(guards[0], false) + PassGuards(guards[1..])
  }

  lemma {:induction false} GuardsPass(f: Frame, guards: seq<Expr>, rest: seq<bool>, s: Trace)
    requires s.script == PassGuards(guards) + rest
    ensures var (d, t) := RunGuards(Recorder(), f, guards, s); d.Holds? && t.script == rest
  {
    if guards != [] {
      assert s.script == Plays(guards[0], false) + (PassGuards(guards[1..]) + rest);
      PlaysRun(f, guards[0], false, PassGuards(guards[1..]) + rest, s);
      GuardsPass(f, guards[1..], rest, Eval(Recorder(), f, guards[0], s).1);
    }
  }

  function ReachGuards(guards: seq<Expr>, goal: Goal): seq<bool> {
    if guards == [] then []
    else if Meets(guards[0], goal) then ReachExpr(guards[0], goal)
    else Plays(guards[0], false) + ReachGuards(guards[1..], goal)
  }

  lemma {:induction false} GuardsReach(f: Frame, g: Frame, sub: Subst, guards: seq<Expr>, goal: Goal, rest: seq<bool>, s: Trace,
                                       t: Trace)
    requires Alike(s, t) && Tells(f, g, sub, goal) && MeetsAny(guards, goal) && s.script == ReachGuards(guards, goal) + rest
    ensures Diverged(RunGuards(Recorder(), f, guards, s).1, RunGuards(Recorder(), g, SubstGuards(sub, guards), t).1)
  {
    hide Eval, SubstExpr, Meets, Plays, ReachExpr, Tells, RunGuards, SubstGuards, Diverged;
    if Meets(guards[0], goal) {
      GuardReached(f, g, sub, guards, goal, rest, s, t);
    } else {
      var more := ReachGuards(guards[1..], goal) + rest;
      assert s.script == Plays(guards[0], false) + more;
      GuardSkipped(f, g, sub, guards, more, s, t);
      GuardsReach(f, g, sub, guards[1..], goal, rest, Eval(Recorder(), f, guards[0], s).1,
                  Eval(Recorder(), g, SubstExpr(sub, guards[0]), t).1);
    }
  }

  lemma {:induction false} GuardReached(f: Frame, g: Frame, sub: Subst, guards: seq<Expr>, goal: Goal, rest: seq<bool>, s: Trace,
                                        t: Trace)
    requires Alike(s, t) && Tells(f, g, sub, goal) && guards != [] && Meets(guards[0], goal)
    requires s.script == ReachExpr(guards[0], goal) + rest
    ensures Diverged(RunGuards(Recorder(), f, guards, s).1, RunGuards(Recorder(), g, SubstGuards(sub, guards), t).1)
  {
    EvalAlike(f, g, sub, guards[0], s, t);
    ExprReaches(f, g, sub, guards[0], goal, rest, s, t);
    hide Eval, SubstExpr, Meets, ReachExpr, Tells, Diverged;
    var u, y := Eval(Recorder(), f, guards[0], s).1, Eval(Recorder(), g, SubstExpr(sub, guards[0]), t).1;
    GuardsAlike(f, g, sub, guards[1..], u, y);
  }

  /** A guard that is played to fail leads both programs to the next one. */
  lemma {:induction false} GuardSkipped(f: Frame, g: Frame, sub: Subst, guards: seq<Expr>, rest: seq<bool>, s: Trace, t: Trace)
    requires Alike(s, t) && guards != [] && s.script == Plays(guards[0], false) + rest
    ensures var u, y := Eval(Recorder(), f, guards[0], s).1, Eval(Recorder(), g, SubstExpr(sub, guards[0]), t).1;
            && Alike(u, y) && u.script == rest
            && RunGuards(Recorder(), f, guards, s) == RunGuards(Recorder(), f, guards[1..], u)
            && RunGuards(Recorder(), g, SubstGuards(sub, guards), t) == RunGuards(Recorder(), g, SubstGuards(sub, guards[1..]), y)
  {
    EvalAlike(f, g, sub, guards[0], s, t);
    PlaysRun(f, guards[0], false, rest, s);
    hide Eval, SubstExpr, Plays;
  }

  // ---------------------------------------------------------------- statements

  lemma {:induction false} StmtsAlike(f: Frame, g: Frame, sub: Subst, stmts: seq<Stmt>, fuel: nat, s: Trace, t: Trace)
    requires Alike(s, t)
    ensures var (o, u), (p, x) := RunStmts(Recorder(), f, stmts, fuel, s), RunStmts(Recorder(), g, SubstStmts(sub, stmts), fuel, t);
            o == p && Onward(s, t, u, x)
    decreases fuel, stmts, 3
  {
    if stmts == [] {
      OnwardGrows(s, t, s, t);
    } else {
      hide Alike, Onward, SubstStmt, RunStmt;
      StmtAlike(f, g, sub, stmts[0], fuel, s, t);
      var (o, a, u) := RunStmt(Recorder(), f, stmts[0], fuel, s);
      var (p, b, x) := RunStmt(Recorder(), g, SubstStmt(sub, stmts[0]), fuel, t);
      if o.Completed? {
        StmtsAlike(a, b, sub, stmts[1..], fuel, u, x);
        OnwardOn(s, t, u, x, RunStmts(Recorder(), a, stmts[1..], fuel, u).1,
                 RunStmts(Recorder(), b, SubstStmts(sub, stmts[1..]), fuel, x).1);
      }
    }
  }

  lemma {:induction false} StmtAlike(f: Frame, g: Frame, sub: Subst, stmt: Stmt, fuel: nat, s: Trace, t: Trace)
    requires Alike(s, t)
    ensures var (o, a, u), (p, b, x) :=
              RunStmt(Recorder(), f, stmt, fuel, s), RunStmt(Recorder(), g, SubstStmt(sub, stmt), fuel, t);
            o == p && Onward(s, t, u, x) && Alike(u, x)
    decreases fuel, stmt, 2
  {
    if stmt.Nested? {
      NestedAlike(f, g, sub, stmt, fuel, s, t);
    } else {
      AnswersAlike(SeeAll(f, stmt.refs), SeeAll(g, SubstRefs(sub, stmt.refs)), s, t);
    }
  }

  lemma {:induction false} NestedAlike(f: Frame, g: Frame, sub: Subst, stmt: Stmt, fuel: nat, s: Trace, t: Trace)
    requires Alike(s, t) && stmt.Nested?
    ensures var (o, u), (p, x) := RunNested(Recorder(), f, stmt, fuel, s), RunNested(Recorder(), g, SubstStmt(sub, stmt), fuel, t);
            o == p && Onward(s, t, u, x)
    decreases fuel, stmt, 1
  {
    hide Alike, Onward, SubstStmt, RunOnce;
    OnceAlike(f, g, sub, stmt, fuel, s, t);
    var (o, again, u) := RunOnce(Recorder(), f, stmt, fuel, s);
    var (p, too, x) := RunOnce(Recorder(), g, SubstStmt(sub, stmt), fuel, t);
    if again && fuel > 0 {
      NestedAlike(f, g, sub, stmt, fuel - 1, u, x);
      OnwardOn(s, t, u, x, RunNested(Recorder(), f, stmt, fuel - 1, u).1,
               RunNested(Recorder(), g, SubstStmt(sub, stmt), fuel - 1, x).1);
    }
  }

  lemma {:induction false} OnceAlike(f: Frame, g: Frame, sub: Subst, stmt: Stmt, fuel: nat, s: Trace, t: Trace)
    requires Alike(s, t) && stmt.Nested?
    ensures var (o, again, u), (p, too, x) :=
              RunOnce(Recorder(), f, stmt, fuel, s), RunOnce(Recorder(), g, SubstStmt(sub, stmt), fuel, t);
            o == p && again == too && Onward(s, t, u, x) && Alike(u, x)
    decreases fuel, stmt, 0
  {
    var less := sub - Declared(stmt.body);
    DeclaredStay(less, stmt.body);
    var read, replaced := SeeAll(f, stmt.refs), SeeAll(g, SubstRefs(sub, stmt.refs));
    AnswersAlike(read, replaced, s, t);
    var (v, u) := Answer(read, s);
    var x := Answer(replaced, t).1;
    if Truthy(v.value) {
      var a, b := Enter(f, Declared(stmt.body)), Enter(g, Declared(stmt.body));
      StmtsAlike(a, b, less, stmt.body, fuel, u, x);
      OnwardOn(s, t, u, x, RunStmts(Recorder(), a, stmt.body, fuel, u).1,
               RunStmts(Recorder(), b, SubstStmts(less, stmt.body), fuel, x).1);
    }
  }

  // ---------------------------------------------------------------- reaching a captured name

  /** No object that is returned from now on. */
  predicate OldValue(v: Value, next: nat) {
    v.Object? ==> v.id < next
  }

  /** `x` reads `v` outside, and the name in its place something else inside. */
  predicate Parted(f: Frame, g: Frame, sub: Subst, x: string, v: Value) {
    && Lookup(f, Ref(x)) == Some(v)
    && SubstRef(sub, Ref(x)).Ref? && Lookup(g, SubstRef(sub, Ref(x))) != Some(v)
  }

  /** A script that passes a statement: a header fails, anything else returns a new object. */
  function Skip(stmt: Stmt): seq<bool> {
    [!stmt.Nested?]
  }

  lemma {:induction false} SkipRuns(f: Frame, stmt: Stmt, fuel: nat, rest: seq<bool>, s: Trace)
    requires s.script == Skip(stmt) + rest
    ensures var (o, a, u) := RunStmt(Recorder(), f, stmt, fuel, s);
            && o.Completed? && u.script == rest && u.next == s.next + 1
            && a == if stmt.Local? then f[stmt.name := Some(Object(s.next))] else f
  {
    assert s.script[1..] == rest;
    if stmt.Nested? {
      var v := Answer(SeeAll(f, stmt.refs), s).0;
      assert !Truthy(v.value);
      assert RunOnce(Recorder(), f, stmt, fuel, s) == (Completed, false, Answer(SeeAll(f, stmt.refs), s).1);
    }
  }

  function ReachStmts(stmts: seq<Stmt>, x: string): seq<bool>
    decreases stmts, 1
  {
    if stmts == [] then []
    else if x in MentionsOf(stmts[0]) then ReachStmt(stmts[0], x)
    else Skip(stmts[0]) + ReachStmts(stmts[1..], x)
  }

  function ReachStmt(stmt: Stmt, x: string): seq<bool>
    decreases stmt, 0
  {
    if x in NamesOf(stmt.refs) || !stmt.Nested? then [] else [true] + ReachStmts(stmt.body, x)
  }

  /** Initializing another variable with a new object leaves them parted. */
  lemma {:induction false} PartedAfter(f: Frame, g: Frame, sub: Subst, x: string, v: Value, stmt: Stmt, next: nat)
    requires Parted(f, g, sub, x, v) && OldValue(v, next) && (stmt.Local? ==> stmt.name != x)
    ensures stmt.Local? ==>
              Parted(f[stmt.name := Some(Object(next))], g[Rename(sub, stmt.name) := Some(Object(next))], sub, x, v)
  {
  }

  /** A block that does not declare `x` leaves them parted, and parts them if it hides what is in its place. */
  lemma {:induction false} PartedInside(f: Frame, g: Frame, sub: Subst, x: string, v: Value, own: set<string>)
    requires x !in own && Lookup(f, Ref(x)) == Some(v) && SubstRef(sub, Ref(x)).Ref?
    requires Parted(f, g, sub, x, v) || SubstRef(sub, Ref(x)).name in own
    ensures Parted(Enter(f, own), Enter(g, own), sub - own, x, v)
  {
    assert SubstRef(sub - own, Ref(x)) == SubstRef(sub, Ref(x));
  }

  lemma {:induction false} StmtsReach(f: Frame, g: Frame, sub: Subst, stmts: seq<Stmt>, x: string, v: Value, rest: seq<bool>,
                                      fuel: nat, s: Trace, t: Trace)
    requires x in Mentions(stmts) && x !in Declared(stmts) && Parted(f, g, sub, x, v) && OldValue(v, s.next)
    requires Alike(s, t) && s.script == ReachStmts(stmts, x) + rest
    ensures Diverged(RunStmts(Recorder(), f, stmts, fuel, s).1, RunStmts(Recorder(), g, SubstStmts(sub, stmts), fuel, t).1)
    decreases fuel, stmts, 3
  {
    hide Parted, OldValue, Diverged, RunStmt, SubstStmt, MentionsOf, ReachStmt;
    var stmt := stmts[0];
    StmtAlike(f, g, sub, stmt, fuel, s, t);
    var (o, a, u) := RunStmt(Recorder(), f, stmt, fuel, s);
    var (p, b, y) := RunStmt(Recorder(), g, SubstStmt(sub, stmt), fuel, t);
    if x in MentionsOf(stmt) {
      StmtReaches(f, g, sub, stmt, x, v, rest, fuel, s, t);
      StmtsAlike(a, b, sub, stmts[1..], fuel, u, y);
    } else {
      assert s.script == Skip(stmt) + (ReachStmts(stmts[1..], x) + rest);
      SkipsAlike(f, g, sub, stmt, fuel, ReachStmts(stmts[1..], x) + rest, s, t);
      PartedAfter(f, g, sub, x, v, stmt, s.next);
      OldStays(v, s.next);
      StmtsReach(a, b, sub, stmts[1..], x, v, rest, fuel, u, y);
    }
  }

  lemma {:induction false} OldStays(v: Value, next: nat)
    requires OldValue(v, next)
    ensures OldValue(v, next + 1)
  {
  }

  lemma {:induction false} SkipsAlike(f: Frame, g: Frame, sub: Subst, stmt: Stmt, fuel: nat, rest: seq<bool>, s: Trace, t: Trace)
    requires Alike(s, t) && s.script == Skip(stmt) + rest
    ensures var (o, a, u) := RunStmt(Recorder(), f, stmt, fuel, s);
            var (p, b, y) := RunStmt(Recorder(), g, SubstStmt(sub, stmt), fuel, t);
            && o.Completed? && p.Completed? && u.script == rest && u.next == s.next + 1
            && a == (if stmt.Local? then f[stmt.name := Some(Object(s.next))] else f)
            && b == (if stmt.Local? then g[Rename(sub, stmt.name) := Some(Object(s.next))] else g)
  {
    SkipRuns(f, stmt, fuel, rest, s);
    SkipRuns(g, SubstStmt(sub, stmt), fuel, rest, t);
  }

  lemma {:induction false} StmtReaches(f: Frame, g: Frame, sub: Subst, stmt: Stmt, x: string, v: Value, rest: seq<bool>,
                                       fuel: nat, s: Trace, t: Trace)
    requires x in MentionsOf(stmt) && Parted(f, g, sub, x, v) && OldValue(v, s.next)
    requires Alike(s, t) && s.script == ReachStmt(stmt, x) + rest
    ensures Diverged(RunStmt(Recorder(), f, stmt, fuel, s).2, RunStmt(Recorder(), g, SubstStmt(sub, stmt), fuel, t).2)
    decreases fuel, stmt, 2
  {
    if stmt.Nested? {
      OnceReaches(f, g, sub, stmt, x, v, rest, fuel, s, t);
      OnceParts(f, g, sub, stmt, fuel, s, t);
    } else {
      RefsDiffer(f, g, sub, x, stmt.refs);
      AnswersAlike(SeeAll(f, stmt.refs), SeeAll(g, SubstRefs(sub, stmt.refs)), s, t);
    }
  }

  /** What parts in the first round stays parted. */
  lemma {:induction false} OnceParts(f: Frame, g: Frame, sub: Subst, stmt: Stmt, fuel: nat, s: Trace, t: Trace)
    requires stmt.Nested? && Alike(s, t)
    requires Diverged(RunOnce(Recorder(), f, stmt, fuel, s).2, RunOnce(Recorder(), g, SubstStmt(sub, stmt), fuel, t).2)
    ensures Diverged(RunStmt(Recorder(), f, stmt, fuel, s).2, RunStmt(Recorder(), g, SubstStmt(sub, stmt), fuel, t).2)
  {
    hide Diverged, Alike, RunOnce, SubstStmt;
    OnceAlike(f, g, sub, stmt, fuel, s, t);
    var (o, again, u) := RunOnce(Recorder(), f, stmt, fuel, s);
    var (p, too, y) := RunOnce(Recorder(), g, SubstStmt(sub, stmt), fuel, t);
    if again && fuel > 0 {
      NestedAlike(f, g, sub, stmt, fuel - 1, u, y);
    }
  }

  /** A round whose header holds runs the block, from the state after the header. */
  lemma {:induction false} OnceInside(f: Frame, g: Frame, sub: Subst, stmt: Stmt, rest: seq<bool>, fuel: nat, s: Trace, t: Trace)
    returns (u: Trace, y: Trace)
    requires stmt.Nested? && Alike(s, t) && s.script == [true] + rest
    ensures Alike(u, y) && u.script == rest && u.next == s.next + 1
    ensures var own := Declared(stmt.body);
            && RunOnce(Recorder(), f, stmt, fuel, s).2 == RunStmts(Recorder(), Enter(f, own), stmt.body, fuel, u).1
            && RunOnce(Recorder(), g, SubstStmt(sub, stmt), fuel, t).2 ==
               RunStmts(Recorder(), Enter(g, own), SubstBlock(sub, stmt.body), fuel, y).1
  {
    DeclaredStay(sub - Declared(stmt.body), stmt.body);
    assert s.script[1..] == rest;
    u, y := Answer(SeeAll(f, stmt.refs), s).1, Answer(SeeAll(g, SubstRefs(sub, stmt.refs)), t).1;
  }

  lemma {:induction false} HeaderTells(f: Frame, g: Frame, sub: Subst, stmt: Stmt, fuel: nat, s: Trace, t: Trace)
    requires stmt.Nested? && SeeAll(f, stmt.refs) != SeeAll(g, SubstRefs(sub, stmt.refs)) && Alike(s, t)
    ensures Diverged(RunOnce(Recorder(), f, stmt, fuel, s).2, RunOnce(Recorder(), g, SubstStmt(sub, stmt), fuel, t).2)
  {
    var own, less := Declared(stmt.body), sub - Declared(stmt.body);
    DeclaredStay(less, stmt.body);
    var read, replaced := SeeAll(f, stmt.refs), SeeAll(g, SubstRefs(sub, stmt.refs));
    AnswersAlike(read, replaced, s, t);
    StmtsAlike(Enter(f, own), Enter(g, own), less, stmt.body, fuel, Answer(read, s).1, Answer(replaced, t).1);
  }

  lemma {:induction false} OnceReaches(f: Frame, g: Frame, sub: Subst, stmt: Stmt, x: string, v: Value, rest: seq<bool>,
                                       fuel: nat, s: Trace, t: Trace)
    requires stmt.Nested? && x in MentionsOf(stmt) && Parted(f, g, sub, x, v) && OldValue(v, s.next)
    requires Alike(s, t) && s.script == ReachStmt(stmt, x) + rest
    ensures Diverged(RunOnce(Recorder(), f, stmt, fuel, s).2, RunOnce(Recorder(), g, SubstStmt(sub, stmt), fuel, t).2)
    decreases fuel, stmt, 1
  {
    if x in NamesOf(stmt.refs) {
      RefsDiffer(f, g, sub, x, stmt.refs);
      HeaderTells(f, g, sub, stmt, fuel, s, t);
    } else {
      var own := Declared(stmt.body);
      PartedInside(f, g, sub, x, v, own);
      assert s.script == [true] + (ReachStmts(stmt.body, x) + rest);
      hide Parted, Diverged, RunOnce, SubstStmt, Enter, Alike, RunStmts, SubstStmts;
      var u, y := OnceInside(f, g, sub, stmt, ReachStmts(stmt.body, x) + rest, fuel, s, t);
      StmtsReach(Enter(f, own), Enter(g, own), sub - own, stmt.body, x, v, rest, fuel, u, y);
    }
  }

  // ---------------------------------------------------------------- reaching a block that hides

  /** Of `names`, no local is mentioned by its own initializer or before. */
  predicate DeclaredFirst(names: set<string>, stmts: seq<Stmt>) {
    stmts == [] || ((MentionsOf(stmts[0]) * names) !! Declared(stmts) && DeclaredFirst(names, stmts[1..]))
  }

  /** Replaced names that are mentioned and not declared below have been initialized. */
  ghost predicate Ready(f: Frame, sub: Subst, stmts: seq<Stmt>, next: nat) {
    forall x :: x in sub && x in Mentions(stmts) && x !in Declared(stmts) ==>
      Lookup(f, Ref(x)).Some? && OldValue(Lookup(f, Ref(x)).value, next)
  }

  ghost function ReachHidden(sub: Subst, stmts: seq<Stmt>): seq<bool>
    requires !Clear(sub, stmts)
    decreases stmts, 1
  {
    if !ClearRefs(sub, stmts[0].refs) then []
    else if !ClearStmt(sub, stmts[0]) then [true] + ReachHiding(sub, stmts[0].body)
    else Skip(stmts[0]) + ReachHidden(sub, stmts[1..])
  }

  ghost function ReachHiding(sub: Subst, block: seq<Stmt>): seq<bool>
    requires !ClearBlock(sub, block)
    decreases block, 2
  {
    if Hides(sub, block) then
      var x :| x in FreeNames(block) && x in sub && sub[x].Ref? && sub[x].name in Declared(block);
      ReachStmts(block, x)
    else ReachHidden(sub - Declared(block), block)
  }

  lemma {:induction false} HidingReached(f: Frame, g: Frame, sub: Subst, block: seq<Stmt>, rest: seq<bool>, fuel: nat,
                                         s: Trace, t: Trace)
    requires !ClearBlock(sub, block) && Alike(s, t) && s.script == ReachHiding(sub, block) + rest
    requires forall x :: x in sub && x in FreeNames(block) ==>
               Lookup(f, Ref(x)).Some? && OldValue(Lookup(f, Ref(x)).value, s.next)
    ensures var own := Declared(block);
            Diverged(RunStmts(Recorder(), Enter(f, own), block, fuel, s).1,
                     RunStmts(Recorder(), Enter(g, own), SubstBlock(sub, block), fuel, t).1)
    decreases fuel, block, 4
  {
    var own := Declared(block);
    if Hides(sub, block) {
      var x :| x in FreeNames(block) && x in sub && sub[x].Ref? && sub[x].name in Declared(block)
               && ReachHiding(sub, block) == ReachStmts(block, x);
      var v := Lookup(f, Ref(x)).value;
      PartedInside(f, g, sub, x, v, own);
      StmtsReach(Enter(f, own), Enter(g, own), sub - own, block, x, v, rest, fuel, s, t);
    } else {
      DeclaredFirstInside(sub, block, block);
      HiddenReached(Enter(f, own), Enter(g, own), sub - own, block, rest, fuel, s, t);
    }
  }

  lemma {:induction false} DeclaredFirstInside(sub: Subst, block: seq<Stmt>, stmts: seq<Stmt>)
    requires Declared(stmts) <= Declared(block)
    ensures DeclaredFirst((sub - Declared(block)).Keys, stmts)
  {
    if stmts != [] {
      DeclaredFirstInside(sub, block, stmts[1..]);
    }
  }

  lemma {:induction false} HiddenReached(f: Frame, g: Frame, sub: Subst, stmts: seq<Stmt>, rest: seq<bool>, fuel: nat,
                                         s: Trace, t: Trace)
    requires !Clear(sub, stmts) && DeclaredFirst(sub.Keys, stmts) && Ready(f, sub, stmts, s.next)
    requires Alike(s, t) && s.script == ReachHidden(sub, stmts) + rest
    ensures Diverged(RunStmts(Recorder(), f, stmts, fuel, s).1, RunStmts(Recorder(), g, SubstStmts(sub, stmts), fuel, t).1)
    decreases fuel, stmts, 3
  {
    hide ClearStmt, RunStmt, SubstStmt, Diverged, Ready, ReachHiding, Skip, Alike, OldValue;
    var stmt := stmts[0];
    StmtAlike(f, g, sub, stmt, fuel, s, t);
    var (o, a, u) := RunStmt(Recorder(), f, stmt, fuel, s);
    var (p, b, y) := RunStmt(Recorder(), g, SubstStmt(sub, stmt), fuel, t);
    if !ClearRefs(sub, stmt.refs) {
      OperationHides(f, g, sub, stmt, fuel, s, t);
      StmtsAlike(a, b, sub, stmts[1..], fuel, u, y);
    } else if !ClearStmt(sub, stmt) {
      BlockReached(f, g, sub, stmt, stmts, rest, fuel, s, t);
      StmtsAlike(a, b, sub, stmts[1..], fuel, u, y);
    } else {
      assert s.script == Skip(stmt) + (ReachHidden(sub, stmts[1..]) + rest);
      SkipsAlike(f, g, sub, stmt, fuel, ReachHidden(sub, stmts[1..]) + rest, s, t);
      ReadyAfter(f, sub, stmts, s.next);
      HiddenReached(a, b, sub, stmts[1..], rest, fuel, u, y);
    }
  }

  /** An operation, or a header, with a scope of its own that binds what a name in it is replaced by. */
  lemma {:induction false} OperationHides(f: Frame, g: Frame, sub: Subst, stmt: Stmt, fuel: nat, s: Trace, t: Trace)
    requires !ClearRefs(sub, stmt.refs) && Alike(s, t)
    ensures Diverged(RunStmt(Recorder(), f, stmt, fuel, s).2, RunStmt(Recorder(), g, SubstStmt(sub, stmt), fuel, t).2)
  {
    HiddenDiffers(f, g, sub, stmt.refs);
    if stmt.Nested? {
      HeaderTells(f, g, sub, stmt, fuel, s, t);
      OnceParts(f, g, sub, stmt, fuel, s, t);
    } else {
      AnswersAlike(SeeAll(f, stmt.refs), SeeAll(g, SubstRefs(sub, stmt.refs)), s, t);
    }
  }

  lemma {:induction false} ReadyAfter(f: Frame, sub: Subst, stmts: seq<Stmt>, next: nat)
    requires stmts != [] && Ready(f, sub, stmts, next)
    ensures var a := if stmts[0].Local? then f[stmts[0].name := Some(Object(next))] else f;
            Ready(a, sub, stmts[1..], next + 1)
  {
  }

  lemma {:induction false} BlockReached(f: Frame, g: Frame, sub: Subst, stmt: Stmt, stmts: seq<Stmt>, rest: seq<bool>,
                                        fuel: nat, s: Trace, t: Trace)
    requires stmts != [] && stmt == stmts[0] && ClearRefs(sub, stmt.refs) && !ClearStmt(sub, stmt)
    requires DeclaredFirst(sub.Keys, stmts) && Ready(f, sub, stmts, s.next)
    requires Alike(s, t) && s.script == [true] + ReachHiding(sub, stmt.body) + rest
    ensures Diverged(RunStmt(Recorder(), f, stmt, fuel, s).2, RunStmt(Recorder(), g, SubstStmt(sub, stmt), fuel, t).2)
    decreases fuel, stmts, 2
  {
    OnceHides(f, g, sub, stmt, stmts, rest, fuel, s, t);
    OnceParts(f, g, sub, stmt, fuel, s, t);
  }

  lemma {:induction false} OnceHides(f: Frame, g: Frame, sub: Subst, stmt: Stmt, stmts: seq<Stmt>, rest: seq<bool>,
                                     fuel: nat, s: Trace, t: Trace)
    requires stmts != [] && stmt == stmts[0] && ClearRefs(sub, stmt.refs) && !ClearStmt(sub, stmt)
    requires DeclaredFirst(sub.Keys, stmts) && Ready(f, sub, stmts, s.next)
    requires Alike(s, t) && s.script == [true] + ReachHiding(sub, stmt.body) + rest
    ensures Diverged(RunOnce(Recorder(), f, stmt, fuel, s).2, RunOnce(Recorder(), g, SubstStmt(sub, stmt), fuel, t).2)
    decreases fuel, stmts, 1
  {
    ReadyInside(f, sub, stmts, s.next);
    assert s.script == [true] + (ReachHiding(sub, stmt.body) + rest);
    hide Ready, DeclaredFirst, Diverged, FreeNames, OldValue, ReachHiding, RunOnce, SubstStmt, Enter, Alike, RunStmts, SubstBlock;
    var u, y := OnceInside(f, g, sub, stmt, ReachHiding(sub, stmt.body) + rest, fuel, s, t);
    HidingReached(f, g, sub, stmt.body, rest, fuel, u, y);
  }

  lemma {:induction false} ReadyInside(f: Frame, sub: Subst, stmts: seq<Stmt>, next: nat)
    requires stmts != [] && stmts[0].Nested? && DeclaredFirst(sub.Keys, stmts) && Ready(f, sub, stmts, next)
    ensures forall x :: x in sub && x in FreeNames(stmts[0].body) ==>
              Lookup(f, Ref(x)).Some? && OldValue(Lookup(f, Ref(x)).value, next + 1)
  {
  }
}
