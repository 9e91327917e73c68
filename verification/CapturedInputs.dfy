/** Inputs on which strict-mode inlining (scripts/inline-functions.ts) changes what a call does. */
module CapturedInputs {
  import opened Prelude
  import opened InlineExpr
  import opened BodyScope
  import opened FreshNames
  import opened StrictInline
  import opened StrictMeaning
  import opened CaptureRuns
  import opened CaptureExactness

  /** A mention with no scope of the operation around it. */
  function Bare(name: string): Mention {
    Mention(Ref(name), {})
  }

  /** `function f(p) { use(p, __inl_p); }`, where `__inl_p` is a variable of the module. */
  function OuterTemp(): Helper {
    Helper(["p"], [], [Do(0, [Bare("p"), Bare("__inl_p")])])
  }

  /** `function f(p) { if (!p) return; const __inl_p = p; use(__inl_p); }`, as inlining `g(p)` into `f` leaves it. */
  function ChainedGuarded(): Helper {
    Helper(["p"], [Not(Atom(0, [Bare("p")]))], [Local("__inl_p", 1, [Bare("p")]), Do(2, [Bare("__inl_p")])])
  }

  /** `function f(p) { while (p.next()) { const __inl_p = p; use(__inl_p); } }`, as inlining `g(p)` leaves it. */
  function ChainedInLoop(): Helper {
    Helper(["p"], [], [Nested(0, [Bare("p")], true, [Local("__inl_p", 1, [Bare("p")]), Do(2, [Bare("__inl_p")])])])
  }

  /** `function f(p) { p.items.forEach(i => { const __inl_p = p; use(__inl_p); }); }`, as inlining `g(p)` leaves it. */
  function ChainedInCallback(): Helper {
    Helper(["p"], [], [Do(0, [Bare("p"), Mention(Ref("p"), {"i", "__inl_p"})])])
  }

  /** `function f() { const x = g(); use(x, x_2); }`, where `x_2` is a variable of the module. */
  function NumberedLocal(): Helper {
    Helper([], [], [Local("x", 0, []), Do(1, [Bare("x"), Bare("x_2")])])
  }

  /** `function f() { const x = g(); use(x); }`. */
  function PlainLocal(): Helper {
    Helper([], [], [Local("x", 0, []), Do(1, [Bare("x")])])
  }

  /** `function f() { use(i, i => g(i)); }`, where `i` is a variable of the module. */
  function BoundElsewhere(): Helper {
    Helper([], [], [Do(0, [Bare("i"), Mention(Ref("i"), {"i"})])])
  }

  lemma {:induction false} OneTemp(helper: Helper, args: seq<Arg>, reserved: set<string>)
    requires helper.params == ["p"] && Used(helper, "p") && |args| == 1 && "__inl_p" !in reserved
    requires helper.guards == [] ==> |helper.tail| == 1 && !helper.tail[0].Local?
    ensures FullPlan(helper, args, reserved).sub == map["p" := Ref("__inl_p")]
    ensures "__inl_p" in NewNames(FullPlan(helper, args, reserved).sub)
  {
    assert TempBase("p") == "__inl_p";
    var plan := PlanParams(helper, args, reserved, 1);
    assert plan == PlanParam(helper, args, 0, PlanParams(helper, args, reserved, 0));
    if helper.guards == [] {
      assert PlanLocals(helper.tail, plan, 1) == PlanLocal(helper.tail[0], PlanLocals(helper.tail, plan, 0));
    }
    assert plan.sub["p"].name == "__inl_p";
  }

  /** Called as `f(x)` in the body of a function with the parameter `x`, which mentions nothing else, a helper differs. */
  ghost predicate CallDiffers(helper: Helper) {
    exists home, s :: Differ(helper, [Computed(9, [Bare("x")], true)], {"f", "x"}, {"x"}, {"x"}, home, s)
  }

  lemma {:induction false} CallArgs()
    ensures ArgNames([Computed(9, [Bare("x")], true)]) <= {"f", "x"}
  {
  }

  lemma {:induction false} OuterTempIsCaptured()
    ensures Proper(OuterTemp()) && CallDiffers(OuterTemp())
  {
    var helper, args, reserved := OuterTemp(), [Computed(9, [Bare("x")], true)], {"f", "x"};
    assert helper.tail[0].refs[0] == Bare("p") && helper.tail[0].refs[1] == Bare("__inl_p");
    assert "p" in NamesOf(helper.tail[0].refs) && "__inl_p" in NamesOf(helper.tail[0].refs);
    OneTemp(helper, args, reserved);
    CallArgs();
    var home, s := CaptureDiffers(helper, args, reserved, {"x"}, {"x"});
  }

  /** The names of `const __inl_p = p; use(__inl_p);`. */
  lemma {:induction false} InlinedNames()
    ensures var tail := ChainedGuarded().tail;
            Declared(tail) == {"__inl_p"} && "p" in Mentions(tail) && DistinctLocals(tail)
  {
    var tail := ChainedGuarded().tail;
    assert tail[0].refs[0] == Bare("p") && "p" in NamesOf(tail[0].refs);
    assert tail[1..] == [tail[1]] && tail[1..][1..] == [];
  }

  lemma {:induction false} ChainedGuardedIsCaptured()
    ensures Proper(ChainedGuarded()) && CallDiffers(ChainedGuarded())
  {
    var helper, args, reserved := ChainedGuarded(), [Computed(9, [Bare("x")], true)], {"f", "x"};
    InlinedNames();
    OneTemp(helper, args, reserved);
    CallArgs();
    assert "p" in FreeNames(helper.tail) && Hides(map["p" := Ref("__inl_p")], helper.tail);
    var home, s := CaptureDiffers(helper, args, reserved, {"x"}, {"x"});
  }

  lemma {:induction false} ChainedInLoopIsCaptured()
    ensures Proper(ChainedInLoop()) && CallDiffers(ChainedInLoop())
  {
    var helper, args, reserved := ChainedInLoop(), [Computed(9, [Bare("x")], true)], {"f", "x"};
    InlinedNames();
    assert helper.tail[0].body == ChainedGuarded().tail;
    assert "p" in FreeNames(helper.tail[0].body) && Hides(map["p" := Ref("__inl_p")], helper.tail[0].body);
    assert helper.tail[0].refs[0] == Bare("p") && "p" in NamesOf(helper.tail[0].refs);
    OneTemp(helper, args, reserved);
    CallArgs();
    var home, s := CaptureDiffers(helper, args, reserved, {"x"}, {"x"});
  }

  lemma {:induction false} ChainedInCallbackIsCaptured()
    ensures Proper(ChainedInCallback()) && CallDiffers(ChainedInCallback())
  {
    var helper, args, reserved := ChainedInCallback(), [Computed(9, [Bare("x")], true)], {"f", "x"};
    var refs := helper.tail[0].refs;
    assert refs[0] == Bare("p") && "p" in NamesOf(refs);
    OneTemp(helper, args, reserved);
    CallArgs();
    assert refs[1].Free() && !SubstMention(map["p" := Ref("__inl_p")], refs[1]).Free();
    assert !ClearRefs(map["p" := Ref("__inl_p")], refs);
    var home, s := CaptureDiffers(helper, args, reserved, {"x"}, {"x"});
  }

  /** Called as `f()` in a function with the parameter `x` that mentions it. */
  lemma {:induction false} NumberedLocalIsCaptured()
    ensures Proper(NumberedLocal()) && exists home, s :: Differ(NumberedLocal(), [], {"f", "x"}, {"x"}, {"x"}, home, s)
  {
    var helper, reserved := NumberedLocal(), {"f", "x"};
    var tail, start := helper.tail, PlanParams(helper, [], reserved, 0);
    assert Decimal(2) == "2" && Candidate("x", 2) == "x_2";
    assert tail[1..] == [tail[1]] && tail[1..][1..] == [];
    assert tail[1].refs[0] == Bare("x") && tail[1].refs[1] == Bare("x_2") && "x_2" in NamesOf(tail[1].refs);
    assert PlanLocals(tail, start, 1) == PlanLocal(tail[0], start);
    assert FullPlan(helper, [], reserved) == PlanLocal(tail[1], PlanLocals(tail, start, 1));
    var sub := FullPlan(helper, [], reserved).sub;
    assert sub == map["x" := Ref("x_2")] && sub["x"].name in NewNames(sub);
    var home, s := CaptureDiffers(helper, [], reserved, {"x"}, {"x"});
  }

  /** Called as `f()` in the body of a function with the parameter `x`, or of `catch (x)`, that does not mention it. */
  lemma {:induction false} ParameterIsRedeclared()
    ensures Proper(PlainLocal()) && exists home, s :: Differ(PlainLocal(), [], {"f"}, {"x"}, {"x"}, home, s)
  {
    var helper, reserved := PlainLocal(), {"f"};
    var tail, start := helper.tail, PlanParams(helper, [], reserved, 0);
    assert tail[1..] == [tail[1]] && tail[1..][1..] == [];
    assert PlanLocals(tail, start, 1) == PlanLocal(tail[0], start);
    assert FullPlan(helper, [], reserved) == PlanLocal(tail[1], PlanLocals(tail, start, 1));
    RenamedIsDeclared(FullPlan(helper, [], reserved).sub, tail, "x");
    assert "x" in NewInBlock(Replaced(helper, [], reserved));
    var home, s := CaptureDiffers(helper, [], reserved, {"x"}, {"x"});
  }

  // ---------------------------------------------------------------- the shadow check

  function BoundInRefs(refs: seq<Mention>): set<string> {
    if refs == [] then {} else refs[0].under + BoundInRefs(refs[1..])
  }

  function BoundInExpr(e: Expr): set<string> {
    match e
    case Atom(_, refs) => BoundInRefs(refs)
    case Loose(_, refs) => BoundInRefs(refs)
    case Paren(inner) => BoundInExpr(inner)
    case Not(operand) => BoundInExpr(operand)
    case And(l, r) => BoundInExpr(l) + BoundInExpr(r)
    case Or(l, r) => BoundInExpr(l) + BoundInExpr(r)
    case Cmp(_, l, r) => BoundInExpr(l) + BoundInExpr(r)
  }

  function BoundInGuards(guards: seq<Expr>): set<string> {
    if guards == [] then {} else BoundInExpr(guards[0]) + BoundInGuards(guards[1..])
  }

  function BoundInStmt(stmt: Stmt): set<string>
    decreases stmt
  {
    BoundInRefs(stmt.refs) + if stmt.Nested? then Declared(stmt.body) + BoundIn(stmt.body) else {}
  }

  /** Names that some scope inside the statements binds. */
  function BoundIn(stmts: seq<Stmt>): set<string>
    decreases stmts
  {
    if stmts == [] then {} else BoundInStmt(stmts[0]) + BoundIn(stmts[1..])
  }

  /**
   `computeFreeNames`: the names that must not be declared around a call. A name that is bound anywhere in the helper counts
   as its own everywhere.
   */
  function CheckedNames(helper: Helper): set<string> {
    OutsideNames(helper) - BoundInGuards(helper.guards) - BoundIn(helper.tail)
  }

  /** The check suffices for helpers that bind none of the names they take from outside. */
  lemma {:induction false} CheckSuffices(helper: Helper, between: set<string>)
    ensures OutsideNames(helper) !! between <==>
            CheckedNames(helper) !! between
            && (OutsideNames(helper) * (BoundInGuards(helper.guards) + BoundIn(helper.tail))) !! between
  {
    assert OutsideNames(helper) ==
           CheckedNames(helper) + OutsideNames(helper) * (BoundInGuards(helper.guards) + BoundIn(helper.tail));
  }

  /** Called as `f()` in the body of a function with a local `i`, a helper passes the check and differs. */
  lemma {:induction false} BoundElsewhereIsCaptured()
    ensures var helper := BoundElsewhere();
            && Proper(helper) && CheckedNames(helper) !! {"i"}
            && exists home, s :: Differ(helper, [], {"f", "i"}, {}, {"i"}, home, s)
  {
    var helper := BoundElsewhere();
    var refs := helper.tail[0].refs;
    assert refs[0] == Bare("i") && "i" in NamesOf(refs) && "i" in OutsideNames(helper);
    assert refs[1..] == [refs[1]] && "i" in BoundInRefs([refs[1]]) && "i" in BoundIn(helper.tail);
    var home, s := CaptureDiffers(helper, [], {"f", "i"}, {}, {"i"});
  }
}
