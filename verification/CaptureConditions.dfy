/** When inlining keeps the meaning of a call, in terms of the helper, the arguments and the block (scripts/inline-functions.ts). */
module CaptureConditions {
  import opened Prelude
  import opened InlineExpr
  import opened BodyScope
  import opened FreshNames
  import opened StrictInline
  import opened StrictMeaning
  import opened CaptureExactness

  // ---------------------------------------------------------------- names that the body takes from outside

  /** The block's names when the `i`-th statement of a tail that lands there is renamed. */
  ghost function TakenBefore(helper: Helper, args: seq<Arg>, reserved: set<string>, i: nat): set<string>
    requires i <= |helper.tail|
  {
    PlanLocals(helper.tail, PlanParams(helper, args, reserved, |helper.params|), i).reserved
  }

  /** `x` is the temporary for a used parameter: its base name if that is free in the block, or the lowest free number. */
  ghost predicate IsTemp(helper: Helper, args: seq<Arg>, reserved: set<string>, x: string) {
    exists i :: 0 <= i < |helper.params| && i < |args| && Used(helper, helper.params[i])
                && x == Fresh(TempBase(helper.params[i]), PlanParams(helper, args, reserved, i).reserved)
  }

  /** `x` is the lowest free number of a local whose name is taken in the block. */
  ghost predicate IsRenamed(helper: Helper, args: seq<Arg>, reserved: set<string>, x: string) {
    exists i :: 0 <= i < |helper.tail| && RenamedAt(helper, args, reserved, i, x)
  }

  ghost predicate RenamedAt(helper: Helper, args: seq<Arg>, reserved: set<string>, i: nat, x: string)
    requires i < |helper.tail|
  {
    var stmt, taken := helper.tail[i], TakenBefore(helper, args, reserved, i);
    stmt.Local? && stmt.name in taken && Lowest(stmt.name, taken, x)
  }

  ghost predicate TempBefore(helper: Helper, args: seq<Arg>, reserved: set<string>, n: nat, x: string)
    requires n <= |helper.params|
  {
    exists i :: 0 <= i < n && i < |args| && Used(helper, helper.params[i])
                && x == Fresh(TempBase(helper.params[i]), PlanParams(helper, args, reserved, i).reserved)
  }

  lemma {:induction false} TempsChosen(helper: Helper, args: seq<Arg>, reserved: set<string>, n: nat, x: string)
    requires Distinct(helper.params) && n <= |helper.params|
    ensures x in NewNames(PlanParams(helper, args, reserved, n).sub) <==> TempBefore(helper, args, reserved, n, x)
  {
    if n > 0 {
      var plan, p := PlanParams(helper, args, reserved, n - 1), helper.params[n - 1];
      TempsChosen(helper, args, reserved, n - 1, x);
      PlanParamsChoose(helper, args, reserved, n - 1);
      UsedParamsAre(helper, n - 1, p);
      hide Used, Chosen, UsedParams;
      if Used(helper, p) {
        NewNamesMore(plan.sub, p, if n - 1 < |args| then Ref(Fresh(TempBase(p), plan.reserved)) else UndefinedText);
      }
    }
  }

  /** Of the locals, the renamed ones, and those that keep their names, which the tail does not take from outside. */
  lemma {:induction false} LocalsChosen(helper: Helper, args: seq<Arg>, reserved: set<string>, n: nat, x: string)
    requires Proper(helper) && n <= |helper.tail| && x !in Declared(helper.tail)
    ensures var params := PlanParams(helper, args, reserved, |helper.params|);
            x in NewNames(PlanLocals(helper.tail, params, n).sub) <==>
            x in NewNames(params.sub) || exists i :: 0 <= i < n && RenamedAt(helper, args, reserved, i, x)
  {
    if n > 0 {
      LocalsChosen(helper, args, reserved, n - 1, x);
      var params, stmt := PlanParams(helper, args, reserved, |helper.params|), helper.tail[n - 1];
      var plan := PlanLocals(helper.tail, params, n - 1);
      if stmt.Local? {
        LocalIsNew(helper, args, reserved, n - 1);
        DeclaredAt(helper.tail, n - 1);
        var now := LocalName(stmt.name, plan.reserved);
        NewNamesMore(plan.sub, stmt.name, Ref(now));
        FreshExactly(stmt.name, plan.reserved, x);
        assert now == x <==> RenamedAt(helper, args, reserved, n - 1, x);
      }
    }
  }

  lemma {:induction false} LocalIsNew(helper: Helper, args: seq<Arg>, reserved: set<string>, i: nat)
    requires Proper(helper) && i < |helper.tail| && helper.tail[i].Local?
    ensures helper.tail[i].name !in PlanLocals(helper.tail, PlanParams(helper, args, reserved, |helper.params|), i).sub
  {
    var params := PlanParams(helper, args, reserved, |helper.params|);
    PlanParamsChoose(helper, args, reserved, |helper.params|);
    forall x | x in params.sub ensures x !in Declared(helper.tail) {
      UsedParamsAre(helper, |helper.params|, x);
    }
    DeclaredAt(helper.tail, i);
    LocalsDistinct(helper.tail, i);
    PlanLocalsChoose(helper.tail, params, reserved, i);
  }

  /**
   The names that are captured, on the input: those the body takes from outside, other than its parameters, that are the
   temporary of a parameter or, in a tail that lands in the block, the lowest free number of a local whose name is taken.
   */
  lemma {:induction false} CapturedExactly(helper: Helper, args: seq<Arg>, reserved: set<string>, x: string)
    requires Proper(helper)
    ensures var sub := FullPlan(helper, args, reserved).sub;
            var names := if helper.guards == [] then Mentions(helper.tail) else TakenFromOutside(helper);
            x in names && x !in sub && x in NewNames(sub) <==>
            x in TakenFromOutside(helper) && x !in helper.params
            && (IsTemp(helper, args, reserved, x) || (helper.guards == [] && IsRenamed(helper, args, reserved, x)))
  {
    UsedParamsAre(helper, |helper.params|, x);
    TempsChosen(helper, args, reserved, |helper.params|, x);
    if helper.guards != [] {
      PlanParamsChoose(helper, args, reserved, |helper.params|);
    } else {
      PlanChooses(helper, args, reserved);
      if x !in Declared(helper.tail) {
        LocalsChosen(helper, args, reserved, |helper.tail|, x);
      }
    }
  }

  // ---------------------------------------------------------------- names that stand under another one

  /** An operation mentions `x` inside a scope of its own that binds `n`. */
  predicate RefsUnder(refs: seq<Mention>, x: string, n: string) {
    exists i :: 0 <= i < |refs| && refs[i].o == Ref(x) && x !in refs[i].under && n in refs[i].under
  }

  predicate ExprUnder(e: Expr, x: string, n: string) {
    match e
    case Atom(_, refs) => RefsUnder(refs, x, n)
    case Loose(_, refs) => RefsUnder(refs, x, n)
    case Paren(inner) => ExprUnder(inner, x, n)
    case Not(operand) => ExprUnder(operand, x, n)
    case And(l, r) => ExprUnder(l, x, n) || ExprUnder(r, x, n)
    case Or(l, r) => ExprUnder(l, x, n) || ExprUnder(r, x, n)
    case Cmp(_, l, r) => ExprUnder(l, x, n) || ExprUnder(r, x, n)
  }

  predicate GuardsUnder(guards: seq<Expr>, x: string, n: string) {
    guards != [] && (ExprUnder(guards[0], x, n) || GuardsUnder(guards[1..], x, n))
  }

  predicate StmtUnder(stmt: Stmt, x: string, n: string)
    decreases stmt, 0
  {
    RefsUnder(stmt.refs, x, n)
    || (stmt.Nested? && x !in Declared(stmt.body)
        && ((n in Declared(stmt.body) && x in Mentions(stmt.body)) || StmtsUnder(stmt.body, x, n)))
  }

  /** The statements mention the `x` of the scope around them in a place where `n` is declared anew. */
  predicate StmtsUnder(stmts: seq<Stmt>, x: string, n: string)
    decreases stmts
  {
    stmts != [] && (StmtUnder(stmts[0], x, n) || StmtsUnder(stmts[1..], x, n))
  }

  /** ... if they are a block of their own. */
  predicate BlockUnder(block: seq<Stmt>, x: string, n: string) {
    x !in Declared(block) && ((n in Declared(block) && x in Mentions(block)) || StmtsUnder(block, x, n))
  }

  predicate HelperUnder(helper: Helper, x: string, n: string) {
    GuardsUnder(helper.guards, x, n) || if helper.guards == [] then StmtsUnder(helper.tail, x, n) else BlockUnder(helper.tail, x, n)
  }

  predicate Replaces(sub: Subst, x: string, n: string) {
    x in sub && sub[x] == Ref(n)
  }

  lemma {:induction false} RefsClear(sub: Subst, refs: seq<Mention>)
    ensures !ClearRefs(sub, refs) <==> exists x, n :: Replaces(sub, x, n) && RefsUnder(refs, x, n)
  {
    if !ClearRefs(sub, refs) {
      var i :| 0 <= i < |refs| && refs[i].Free() && !SubstMention(sub, refs[i]).Free();
      var x := refs[i].o.name;
      assert Replaces(sub, x, sub[x].name) && RefsUnder(refs, x, sub[x].name);
    }
    if x, n :| Replaces(sub, x, n) && RefsUnder(refs, x, n) {
      var i :| 0 <= i < |refs| && refs[i].o == Ref(x) && x !in refs[i].under && n in refs[i].under;
      assert !SubstMention(sub, refs[i]).Free();
    }
  }

  lemma {:induction false} ExprClear(sub: Subst, e: Expr)
    ensures !ClearExpr(sub, e) <==> exists x, n :: Replaces(sub, x, n) && ExprUnder(e, x, n)
  {
    hide Replaces, RefsUnder, ClearRefs;
    match e
    case Atom(_, refs) => RefsClear(sub, refs);
    case Loose(_, refs) => RefsClear(sub, refs);
    case Paren(inner) => ExprClear(sub, inner);
    case Not(operand) => ExprClear(sub, operand);
    case And(l, r) => ExprClear(sub, l); ExprClear(sub, r);
    case Or(l, r) => ExprClear(sub, l); ExprClear(sub, r);
    case Cmp(_, l, r) => ExprClear(sub, l); ExprClear(sub, r);
  }

  lemma {:induction false} GuardsClear(sub: Subst, guards: seq<Expr>)
    ensures !ClearGuards(sub, guards) <==> exists x, n :: Replaces(sub, x, n) && GuardsUnder(guards, x, n)
  {
    hide Replaces, ExprUnder, ClearExpr;
    if guards != [] {
      ExprClear(sub, guards[0]);
      GuardsClear(sub, guards[1..]);
    }
  }

  lemma {:induction false} StmtsClear(sub: Subst, stmts: seq<Stmt>)
    ensures !Clear(sub, stmts) <==> exists x, n :: Replaces(sub, x, n) && StmtsUnder(stmts, x, n)
    decreases stmts, 2
  {
    hide Replaces, StmtUnder, ClearStmt;
    if stmts != [] {
      StmtClear(sub, stmts[0]);
      StmtsClear(sub, stmts[1..]);
    }
  }

  lemma {:induction false} StmtClear(sub: Subst, stmt: Stmt)
    ensures !ClearStmt(sub, stmt) <==> exists x, n :: Replaces(sub, x, n) && StmtUnder(stmt, x, n)
    decreases stmt, 3
  {
    hide Replaces, RefsUnder, ClearRefs, ClearBlock, BlockUnder;
    RefsClear(sub, stmt.refs);
    if stmt.Nested? {
      BlockClear(sub, stmt.body);
      assert ClearStmt(sub, stmt) <==> ClearRefs(sub, stmt.refs) && ClearBlock(sub, stmt.body) by {
        NestedClear(sub, stmt);
      }
      forall x, n ensures StmtUnder(stmt, x, n) <==> RefsUnder(stmt.refs, x, n) || BlockUnder(stmt.body, x, n) {
        NestedUnder(stmt, x, n);
      }
    }
  }

  lemma {:induction false} NestedClear(sub: Subst, stmt: Stmt)
    requires stmt.Nested?
    ensures ClearStmt(sub, stmt) <==> ClearRefs(sub, stmt.refs) && ClearBlock(sub, stmt.body)
  {
  }

  lemma {:induction false} NestedUnder(stmt: Stmt, x: string, n: string)
    requires stmt.Nested?
    ensures StmtUnder(stmt, x, n) <==> RefsUnder(stmt.refs, x, n) || BlockUnder(stmt.body, x, n)
  {
  }

  lemma {:induction false} BlockClear(sub: Subst, block: seq<Stmt>)
    ensures !ClearBlock(sub, block) <==> exists x, n :: Replaces(sub, x, n) && BlockUnder(block, x, n)
    decreases block, 4
  {
    var less := sub - Declared(block);
    StmtsClear(less, block);
    if !ClearBlock(sub, block) {
      if Hides(sub, block) {
        var x :| x in FreeNames(block) && x in sub && sub[x].Ref? && sub[x].name in Declared(block);
        assert Replaces(sub, x, sub[x].name) && BlockUnder(block, x, sub[x].name);
      } else {
        var x, n :| Replaces(less, x, n) && StmtsUnder(block, x, n);
        assert Replaces(sub, x, n) && BlockUnder(block, x, n);
      }
    }
    if x, n :| Replaces(sub, x, n) && BlockUnder(block, x, n) {
      if StmtsUnder(block, x, n) {
        assert Replaces(less, x, n);
      } else {
        assert x in FreeNames(block);
      }
    }
  }

  // ---------------------------------------------------------------- which name becomes which

  /** The `i`-th parameter is used, has an argument, and becomes the temporary `n`. */
  ghost predicate ParamBecomes(helper: Helper, args: seq<Arg>, reserved: set<string>, i: nat, x: string, n: string) {
    i < |helper.params| && i < |args| && helper.params[i] == x && Used(helper, x)
    && n == Fresh(TempBase(x), PlanParams(helper, args, reserved, i).reserved)
  }

  /** The `i`-th statement of a tail in the block declares `x`, which keeps its name if that is free in the block. */
  ghost predicate LocalBecomes(helper: Helper, args: seq<Arg>, reserved: set<string>, i: nat, x: string, n: string) {
    i < |helper.tail| && helper.tail[i].Local? && helper.tail[i].name == x
    && n == LocalName(x, TakenBefore(helper, args, reserved, i))
  }

  ghost predicate Becomes(helper: Helper, args: seq<Arg>, reserved: set<string>, x: string, n: string) {
    (exists i: nat :: ParamBecomes(helper, args, reserved, i, x, n))
    || (helper.guards == [] && exists i: nat :: LocalBecomes(helper, args, reserved, i, x, n))
  }

  lemma {:induction false} ParamsBecome(helper: Helper, args: seq<Arg>, reserved: set<string>, k: nat, x: string, n: string)
    requires Distinct(helper.params) && k <= |helper.params|
    ensures Replaces(PlanParams(helper, args, reserved, k).sub, x, n) <==>
            exists i: nat :: i < k && ParamBecomes(helper, args, reserved, i, x, n)
  {
    if k > 0 {
      ParamsBecome(helper, args, reserved, k - 1, x, n);
      ParamNext(helper, args, reserved, k - 1, x, n);
      hide ParamBecomes, Replaces, PlanParams;
      assert ParamBecomes(helper, args, reserved, k - 1, x, n) ==>
             exists i: nat :: i < k && ParamBecomes(helper, args, reserved, i, x, n);
    }
  }

  lemma {:induction false} ParamNext(helper: Helper, args: seq<Arg>, reserved: set<string>, k: nat, x: string, n: string)
    requires Distinct(helper.params) && k < |helper.params|
    ensures Replaces(PlanParams(helper, args, reserved, k + 1).sub, x, n) <==>
            Replaces(PlanParams(helper, args, reserved, k).sub, x, n) || ParamBecomes(helper, args, reserved, k, x, n)
  {
    PlanParamsChoose(helper, args, reserved, k);
    UsedParamsAre(helper, k, helper.params[k]);
    var plan := PlanParams(helper, args, reserved, k);
    hide Chosen, UsedParams, Used, Distinct;
    assert helper.params[k] !in plan.sub;
    assert PlanParams(helper, args, reserved, k + 1) == PlanParam(helper, args, k, plan);
    hide PlanParams;
  }

  lemma {:induction false} LocalsBecome(helper: Helper, args: seq<Arg>, reserved: set<string>, k: nat, x: string, n: string)
    requires Proper(helper) && k <= |helper.tail|
    ensures var params := PlanParams(helper, args, reserved, |helper.params|);
            Replaces(PlanLocals(helper.tail, params, k).sub, x, n) <==>
            Replaces(params.sub, x, n) || exists i: nat :: i < k && LocalBecomes(helper, args, reserved, i, x, n)
  {
    if k > 0 {
      LocalsBecome(helper, args, reserved, k - 1, x, n);
      if helper.tail[k - 1].Local? {
        LocalIsNew(helper, args, reserved, k - 1);
      }
      hide Proper, PlanParams;
      if LocalBecomes(helper, args, reserved, k - 1, x, n) {
        assert helper.tail[k - 1].name == x;
      }
    }
  }

  lemma {:induction false} BecomesExactly(helper: Helper, args: seq<Arg>, reserved: set<string>, x: string, n: string)
    requires Proper(helper)
    ensures Replaces(FullPlan(helper, args, reserved).sub, x, n) <==> Becomes(helper, args, reserved, x, n)
  {
    ParamsBecome(helper, args, reserved, |helper.params|, x, n);
    if helper.guards == [] {
      LocalsBecome(helper, args, reserved, |helper.tail|, x, n);
    }
  }

  /** What the block declares are the names that replace others. */
  lemma {:induction false} DeclaresExactly(helper: Helper, args: seq<Arg>, reserved: set<string>)
    requires Proper(helper)
    ensures NewInBlock(Replaced(helper, args, reserved)) == NewNames(FullPlan(helper, args, reserved).sub)
  {
    var plan, params := FullPlan(helper, args, reserved), PlanParams(helper, args, reserved, |helper.params|);
    PlanChooses(helper, args, reserved);
    PlanParamsChoose(helper, args, reserved, |helper.params|);
    NewInBlockChosen(helper, plan.prefix, plan.sub);
    forall n | n in NewNames(plan.sub) ensures n in NewInBlock(Replaced(helper, args, reserved)) {
      var x :| x in plan.sub && plan.sub[x].Ref? && plan.sub[x].name == n;
      if x in params.sub {
        assert n in NewNames(params.sub);
      } else {
        RenamedIsDeclared(plan.sub, helper.tail, x);
      }
    }
  }

  /** A name is hidden exactly when it is mentioned in a place where the name it becomes is declared anew. */
  lemma {:induction false} HiddenExactly(helper: Helper, args: seq<Arg>, reserved: set<string>)
    requires Proper(helper)
    ensures var sub := FullPlan(helper, args, reserved).sub;
            ClearGuards(sub, helper.guards) && (if helper.guards == [] then Clear(sub, helper.tail) else ClearBlock(sub, helper.tail))
            <==> forall x, n :: Becomes(helper, args, reserved, x, n) ==> !HelperUnder(helper, x, n)
  {
    var sub := FullPlan(helper, args, reserved).sub;
    GuardsClear(sub, helper.guards);
    if helper.guards == [] {
      StmtsClear(sub, helper.tail);
    } else {
      BlockClear(sub, helper.tail);
    }
    hide Becomes, Replaces, FullPlan, GuardsUnder, StmtsUnder, BlockUnder, ClearGuards, Clear, ClearBlock;
    forall x, n ensures Replaces(sub, x, n) <==> Becomes(helper, args, reserved, x, n) {
      BecomesExactly(helper, args, reserved, x, n);
    }
  }

  lemma {:induction false} NewNamesBecome(helper: Helper, args: seq<Arg>, reserved: set<string>, n: string)
    requires Proper(helper)
    ensures n in NewNames(FullPlan(helper, args, reserved).sub) <==> exists x :: Becomes(helper, args, reserved, x, n)
  {
    var sub := FullPlan(helper, args, reserved).sub;
    hide Becomes, FullPlan;
    if n in NewNames(sub) {
      var x :| x in sub && sub[x].Ref? && sub[x].name == n;
      BecomesExactly(helper, args, reserved, x, n);
    }
    if x :| Becomes(helper, args, reserved, x, n) {
      BecomesExactly(helper, args, reserved, x, n);
    }
  }

  /**
   The whole condition on the input. Whatever name `x` becomes whatever `n`: the body does not take `n` from outside, the
   block may declare it, and `x` is not mentioned where `n` is declared anew. Guards mention no local of the tail, and what
   the body takes from outside is not declared around the call.
   */
  lemma {:induction false} InlinableExactly(helper: Helper, args: seq<Arg>, reserved: set<string>, bound: set<string>,
                                            between: set<string>)
    requires Proper(helper)
    ensures Inlinable(helper, args, reserved, bound, between) <==>
            && (forall x, n :: Becomes(helper, args, reserved, x, n) ==>
                  n !in OutsideNames(helper) && n !in bound && !HelperUnder(helper, x, n))
            && NamesInAll(helper.guards) !! Declared(helper.tail)
            && OutsideNames(helper) !! between
  {
    var sub := FullPlan(helper, args, reserved).sub;
    HiddenExactly(helper, args, reserved);
    DeclaresExactly(helper, args, reserved);
    TakenExactly(helper, args, reserved);
    hide Becomes, HelperUnder, FullPlan, NewNames, NewInBlock, Replaced, ClearGuards, Clear, ClearBlock, OutsideNames, Mentions, TakenFromOutside;
    forall n ensures n in NewNames(sub) <==> exists x :: Becomes(helper, args, reserved, x, n) {
      NewNamesBecome(helper, args, reserved, n);
    }
  }

  /** The names that nothing replaces are those from outside, unless guards mention locals of the tail. */
  lemma {:induction false} TakenExactly(helper: Helper, args: seq<Arg>, reserved: set<string>)
    requires Proper(helper)
    ensures helper.guards == [] ==> Mentions(helper.tail) - FullPlan(helper, args, reserved).sub.Keys == OutsideNames(helper)
    ensures helper.guards != [] && NamesInAll(helper.guards) !! Declared(helper.tail) ==>
              TakenFromOutside(helper) - FullPlan(helper, args, reserved).sub.Keys == OutsideNames(helper)
  {
    PlanChooses(helper, args, reserved);
    forall x ensures x in UsedParams(helper, |helper.params|) <==> Used(helper, x) && x in SetOf(helper.params) {
      UsedParamsAre(helper, |helper.params|, x);
    }
  }
}
