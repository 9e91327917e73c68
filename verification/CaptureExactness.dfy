/** Exactly when strict-mode inlining equals the call: when no chosen name captures, or is captured. */
module CaptureExactness {
  import opened Prelude
  import opened InlineExpr
  import opened GuardInversion
  import opened FlipExactness
  import opened BodyScope
  import opened FreshNames
  import opened StrictInline
  import opened StrictMeaning
  import opened CaptureRuns

  // ---------------------------------------------------------------- up to the body

  /** A number above those of all objects among the arguments. */
  function Above(args: seq<Arg>): (n: nat)
    ensures forall i :: 0 <= i < |args| && args[i].Literal? ==> OldValue(args[i].v, n)
  {
    if args == [] then 0
    else
      var last, n := args[|args| - 1], Above(args[..|args| - 1]);
      if last.Literal? && last.v.Object? && last.v.id >= n then last.v.id + 1 else n
  }

  /** A value no argument has, and no operation returns. */
  function Mark(args: seq<Arg>): Value {
    Object(Above(args))
  }

  function ArgScript(args: seq<Arg>): seq<bool> {
    if args == [] then []
    else ArgScript(args[..|args| - 1]) + if args[|args| - 1].Computed? then [true] else []
  }

  function Begin(args: seq<Arg>, rest: seq<bool>): Trace {
    Trace(ArgScript(args) + rest, Above(args) + 1, [])
  }

  predicate Fresher(v: Value, from: nat, next: nat) {
    v.Object? && from <= v.id < next
  }

  lemma {:induction false} ArgsTraced(env: Frame, args: seq<Arg>, rest: seq<bool>, s: Trace)
    requires s.script == ArgScript(args) + rest
    ensures var (vals, t) := EvalArgs(Recorder(), env, args, s);
            && vals.Some? && t.script == rest && s.next <= t.next
            && forall i :: 0 <= i < |args| ==>
                 (args[i].Literal? && vals.value[i] == args[i].v) || Fresher(vals.value[i], s.next, t.next)
  {
    if args != [] {
      var init, last := args[..|args| - 1], args[|args| - 1];
      var one := if last.Computed? then [true] else [];
      assert s.script == ArgScript(init) + (one + rest);
      ArgsTraced(env, init, one + rest, s);
      assert last.Computed? ==> (one + rest)[1..] == rest;
      hide SeeAll, ArgScript;
    }
  }

  /** The arguments' values are neither the mark nor any object to come. */
  predicate Plain(v: Value, args: seq<Arg>, next: nat) {
    OldValue(v, next) && v != Mark(args)
  }

  /** Both programs evaluate the arguments alike, and stand before the body in the same state. */
  lemma {:induction false} Begins(helper: Helper, args: seq<Arg>, reserved: set<string>, home: Frame, env: Frame,
                                  rest: seq<bool>, fuel: nat)
    returns (vals: seq<Value>, frame: Frame, t: Trace)
    requires Proper(helper) && |args| <= |helper.params| && ArgNames(args) <= reserved
    ensures Entered(helper, args, reserved, env, frame, vals)
    ensures t.script == rest && Above(args) < t.next && forall i: nat :: Plain(ValueAt(vals, i), args, t.next)
    ensures RunCall(Recorder(), home, env, helper, args, fuel, Begin(args, rest)) ==
            RunBody(Recorder(), BodyFrame(home, helper, vals), helper, fuel, t)
    ensures RunReplacement(Recorder(), env, Replaced(helper, args, reserved), fuel, Begin(args, rest)) ==
            GoesOn(Recorder(), frame, Fill(helper, [], FullPlan(helper, args, reserved).sub), fuel, t)
  {
    hide Proper, ArgNames, NewInBlock, FullPlan, Entered, Plain, RunPrefix, RunBody, EvalArgs, Combined, SubstStmts, SubstBlock;
    var s, r := Begin(args, rest), Replaced(helper, args, reserved);
    ArgsTraced(env, args, rest, s);
    PrefixMeans(Recorder(), env, helper, args, reserved, s);
    vals, t := EvalArgs(Recorder(), env, args, s).0.value, EvalArgs(Recorder(), env, args, s).1;
    frame := RunPrefix(Recorder(), Enter(env, NewInBlock(r)), r.prefix, s).0.value;
    ValuesPlain(args, vals, s.next, t.next);
  }

  lemma {:induction false} ValuesPlain(args: seq<Arg>, vals: seq<Value>, from: nat, next: nat)
    requires |vals| == |args| && Above(args) < from <= next
    requires forall i :: 0 <= i < |args| ==> (args[i].Literal? && vals[i] == args[i].v) || Fresher(vals[i], from, next)
    ensures forall i: nat :: Plain(ValueAt(vals, i), args, next)
  {
    forall i: nat ensures Plain(ValueAt(vals, i), args, next) {
      assert i < |args| && args[i].Literal? ==> OldValue(args[i].v, Above(args));
    }
  }

  // ---------------------------------------------------------------- what the names read there

  /** A replaced parameter has its argument's value in the helper. */
  lemma {:induction false} ParamReads(helper: Helper, args: seq<Arg>, reserved: set<string>, home: Frame, vals: seq<Value>, x: string)
    requires Proper(helper) && x in FullPlan(helper, args, reserved).sub && x !in Declared(helper.tail)
    ensures exists i: nat :: Lookup(BodyFrame(home, helper, vals), Ref(x)) == Some(ValueAt(vals, i))
  {
    PlanChooses(helper, args, reserved);
    UsedParamsAre(helper, |helper.params|, x);
    var i :| 0 <= i < |helper.params| && helper.params[i] == x;
    BindValue(helper.params, vals, i);
    assert Lookup(BodyFrame(home, helper, vals), Ref(x)) == Some(ValueAt(vals, i));
  }

  /** A new name reads an argument's value, or is not initialized. */
  lemma {:induction false} NewNameReads(helper: Helper, args: seq<Arg>, reserved: set<string>, env: Frame, frame: Frame,
                                        vals: seq<Value>, x: string)
    requires Proper(helper) && x in NewNames(FullPlan(helper, args, reserved).sub)
    requires Entered(helper, args, reserved, env, frame, vals)
    ensures Lookup(frame, Ref(x)) == None || exists i: nat :: Lookup(frame, Ref(x)) == Some(ValueAt(vals, i))
    ensures helper.guards != [] ==> Lookup(frame, Ref(x)).Some?
  {
    var plan, params := FullPlan(helper, args, reserved), PlanParams(helper, args, reserved, |helper.params|);
    PlanChooses(helper, args, reserved);
    PlanParamsChoose(helper, args, reserved, |helper.params|);
    var y :| y in plan.sub && plan.sub[y].Ref? && plan.sub[y].name == x;
    UsedParamsAre(helper, |helper.params|, y);
    if y in params.sub {
      var i :| 0 <= i < |helper.params| && helper.params[i] == y;
      assert BoundParam(helper, frame, params.sub, helper.params[i], ValueAt(vals, i));
      assert Lookup(frame, Ref(x)) == Some(ValueAt(vals, i));
    } else {
      LocalAgreesInBlock(helper, args, reserved, map[], env, frame, vals, y);
      assert Lookup(BodyFrame(map[], helper, vals), Ref(y)) == None;
    }
  }

  /** A name the body takes from outside reads the mark there, and something else where another one stands in its way. */
  lemma {:induction false} OutsideParted(helper: Helper, args: seq<Arg>, reserved: set<string>, home: Frame, env: Frame,
                                         frame: Frame, vals: seq<Value>, next: nat, x: string)
    requires Proper(helper) && Entered(helper, args, reserved, env, frame, vals)
    requires forall i: nat :: Plain(ValueAt(vals, i), args, next)
    requires Lookup(home, Ref(x)) == Some(Mark(args)) && x in TakenFromOutside(helper) && x !in Declared(helper.tail)
    requires var sub := FullPlan(helper, args, reserved).sub;
             x !in sub && (x in NewNames(sub) || Lookup(env, Ref(x)) != Some(Mark(args)))
    ensures Parted(BodyFrame(home, helper, vals), frame, FullPlan(helper, args, reserved).sub, x, Mark(args))
  {
    var plan := FullPlan(helper, args, reserved);
    PlanChooses(helper, args, reserved);
    UsedParamsAre(helper, |helper.params|, x);
    OutsideRead(helper, vals, home, x);
    if x in NewNames(plan.sub) {
      NewNameReads(helper, args, reserved, env, frame, vals, x);
    } else {
      NewInBlockChosen(helper, plan.prefix, plan.sub);
    }
  }

  // ---------------------------------------------------------------- a run for every capture

  /** The scope of a call below `home`: `between` are the names declared on the way. */
  function Below(home: Frame, between: set<string>): Frame {
    home + map n | n in between :: Some(Undefined)
  }

  /** Call and replacement part on the recording host. */
  ghost predicate Differ(helper: Helper, args: seq<Arg>, reserved: set<string>, bound: set<string>, between: set<string>,
                         home: Frame, s: Trace) {
    var env := Below(home, between);
    RunInlined(Recorder(), env, bound, Replaced(helper, args, reserved), 0, s) != RunCall(Recorder(), home, env, helper, args, 0, s)
  }

  /** Something stands in the way of `x` where the call stands. */
  ghost predicate InTheWay(helper: Helper, args: seq<Arg>, reserved: set<string>, between: set<string>, x: string) {
    var sub := FullPlan(helper, args, reserved).sub;
    x !in sub && (x in NewNames(sub) || x in between)
  }

  /** The block declares a name that may not be declared there. */
  lemma {:induction false} RedeclarationDiffers(helper: Helper, args: seq<Arg>, reserved: set<string>, bound: set<string>,
                                                between: set<string>, home: Frame, s: Trace)
    requires !(NewInBlock(Replaced(helper, args, reserved)) !! bound)
    ensures Differ(helper, args, reserved, bound, between, home, s)
  {
    var (vals, t) := EvalArgs(Recorder(), Below(home, between), args, s);
    if vals.Some? {
      var f := BodyFrame(home, helper, vals.value);
      NeverRejected(Recorder(), f, helper.tail, 0, RunGuards(Recorder(), f, helper.guards, t).1);
    }
  }

  /** A tail in the block takes a name from outside that is a new name there. */
  lemma {:induction false} SplicedCaptures(helper: Helper, args: seq<Arg>, reserved: set<string>, bound: set<string>,
                                            between: set<string>, x: string) returns (home: Frame, s: Trace)
    requires Proper(helper) && |args| <= |helper.params| && ArgNames(args) <= reserved && helper.guards == []
    requires x in Mentions(helper.tail) && InTheWay(helper, args, reserved, between, x)
    requires NewInBlock(Replaced(helper, args, reserved)) !! bound
    ensures Differ(helper, args, reserved, bound, between, home, s)
  {
    var sub := FullPlan(helper, args, reserved).sub;
    home := map[x := Some(Mark(args))];
    var env := Below(home, between);
    s := Begin(args, ReachStmts(helper.tail, x));
    var vals, frame, t := Begins(helper, args, reserved, home, env, ReachStmts(helper.tail, x), 0);
    PlanChooses(helper, args, reserved);
    OutsideParted(helper, args, reserved, home, env, frame, vals, t.next, x);
    hide Proper, ArgNames, FullPlan, Entered, Plain, Begin, NewNames, Declared, Mentions, RunPrefix;
    StmtsReach(BodyFrame(home, helper, vals), frame, sub, helper.tail, x, Mark(args), [], 0, t, t);
  }

  lemma {:induction false} DeclaredFirstMore(names: set<string>, more: set<string>, tail: seq<Stmt>)
    requires DeclaredFirst(names, tail) && Declared(tail) <= names
    ensures DeclaredFirst(more, tail)
  {
    if tail != [] {
      DeclaredFirstMore(names, more, tail[1..]);
    }
  }

  /** A block inside a tail in the block hides a new name. */
  lemma {:induction false} SplicedHides(helper: Helper, args: seq<Arg>, reserved: set<string>, bound: set<string>,
                                        between: set<string>) returns (home: Frame, s: Trace)
    requires Proper(helper) && |args| <= |helper.params| && ArgNames(args) <= reserved && helper.guards == []
    requires !Clear(FullPlan(helper, args, reserved).sub, helper.tail) && NewInBlock(Replaced(helper, args, reserved)) !! bound
    requires DeclaredFirst(Declared(helper.tail), helper.tail)
    ensures Differ(helper, args, reserved, bound, between, home, s)
  {
    var sub := FullPlan(helper, args, reserved).sub;
    home := map[];
    var env := Below(home, between);
    s := Begin(args, ReachHidden(sub, helper.tail));
    var vals, frame, t := Begins(helper, args, reserved, home, env, ReachHidden(sub, helper.tail), 0);
    var f := BodyFrame(home, helper, vals);
    forall x | x in sub && x in Mentions(helper.tail) && x !in Declared(helper.tail)
      ensures Lookup(f, Ref(x)).Some? && OldValue(Lookup(f, Ref(x)).value, t.next)
    {
      ParamReads(helper, args, reserved, home, vals, x);
    }
    DeclaredFirstMore(Declared(helper.tail), sub.Keys, helper.tail);
    HiddenReached(f, frame, sub, helper.tail, [], 0, t, t);
  }

  /** The inverted condition runs as the edited guards do. */
  lemma {:induction false} ConditionRecorded(frame: Frame, guards: seq<Expr>, t: Trace)
    requires guards != []
    ensures Decide(Eval(Recorder(), frame, Combined(guards), t)) == RunGuards(Recorder(), frame, guards, t)
  {
    RecorderOrders();
    TotalOrderSuffices(Recorder(), frame, guards, t);
  }

  /** What parts in the guards stays parted. */
  lemma {:induction false} GuardsPart(helper: Helper, sub: Subst, f: Frame, frame: Frame, fuel: nat, t: Trace)
    requires helper.guards != [] && f == Enter(f, Declared(helper.tail))
    requires Diverged(RunGuards(Recorder(), f, helper.guards, t).1,
                      RunGuards(Recorder(), frame, SubstGuards(sub, helper.guards), t).1)
    ensures Diverged(RunBody(Recorder(), f, helper, fuel, t).1,
                     GoesOn(Recorder(), frame, Fill(helper, [], sub), fuel, t).1)
  {
    var own := Declared(helper.tail);
    GuardsAlike(f, frame, sub, helper.guards, t, t);
    ConditionRecorded(frame, SubstGuards(sub, helper.guards), t);
    DeclaredStay(sub - own, helper.tail);
    var (d, u) := RunGuards(Recorder(), f, helper.guards, t);
    var y := RunGuards(Recorder(), frame, SubstGuards(sub, helper.guards), t).1;
    if d.Holds? {
      StmtsAlike(f, Enter(frame, own), sub - own, helper.tail, fuel, u, y);
    }
  }

  /** Past the guards, what parts in the tail is the outcome. */
  lemma {:induction false} TailParts(helper: Helper, sub: Subst, f: Frame, frame: Frame, fuel: nat, rest: seq<bool>, t: Trace)
    returns (u: Trace, y: Trace)
    requires helper.guards != [] && f == Enter(f, Declared(helper.tail)) && t.script == PassGuards(helper.guards) + rest
    ensures Alike(u, y) && u.script == rest && t.next <= u.next
    ensures RunBody(Recorder(), f, helper, fuel, t) == RunStmts(Recorder(), f, helper.tail, fuel, u)
    ensures GoesOn(Recorder(), frame, Fill(helper, [], sub), fuel, t) ==
            RunStmts(Recorder(), Enter(frame, Declared(helper.tail)), SubstBlock(sub, helper.tail), fuel, y)
  {
    GuardsAlike(f, frame, sub, helper.guards, t, t);
    GuardsPass(f, helper.guards, rest, t);
    ConditionRecorded(frame, SubstGuards(sub, helper.guards), t);
    DeclaredStay(sub - Declared(helper.tail), helper.tail);
    u := RunGuards(Recorder(), f, helper.guards, t).1;
    y := RunGuards(Recorder(), frame, SubstGuards(sub, helper.guards), t).1;
  }

  lemma {:induction false} BodyFrameEntered(helper: Helper, home: Frame, vals: seq<Value>)
    ensures BodyFrame(home, helper, vals) == Enter(BodyFrame(home, helper, vals), Declared(helper.tail))
  {
  }

  /** A guard mentions a local of the tail, or takes a name from outside that is a new name. */
  lemma {:induction false} GuardCaptures(helper: Helper, args: seq<Arg>, reserved: set<string>, bound: set<string>,
                                            between: set<string>, x: string) returns (home: Frame, s: Trace)
    requires Proper(helper) && |args| <= |helper.params| && ArgNames(args) <= reserved && x in NamesInAll(helper.guards)
    requires helper.guards != [] && x !in FullPlan(helper, args, reserved).sub
    requires x in Declared(helper.tail) || InTheWay(helper, args, reserved, between, x)
    requires NewInBlock(Replaced(helper, args, reserved)) !! bound
    ensures Differ(helper, args, reserved, bound, between, home, s)
  {
    hide Proper, ArgNames, NamesInAll, Declared, NewNames, FullPlan, Fill, ReachGuards, Entered, Plain, BodyFrame, RunCall,
         RunReplacement, RunBody, GoesOn, RunGuards, Enter, Begin, Differs, Tells, Mentioning;
    var sub, reach := FullPlan(helper, args, reserved).sub, ReachGuards(helper.guards, Mentioning(x));
    home := map[x := Some(Mark(args))];
    var env := Below(home, between);
    s := Begin(args, reach);
    var vals, frame, t := Begins(helper, args, reserved, home, env, reach, 0);
    GuardDiffers(helper, args, reserved, home, env, frame, vals, t.next, x);
    GuardsMention(helper.guards, x);
    MentioningTells(BodyFrame(home, helper, vals), frame, sub, x);
    GuardsTell(helper, args, reserved, bound, between, Mentioning(x), home, vals, frame, t);
  }

  /** A guard that finds something else in the replacement parts them. */
  lemma {:induction false} GuardsTell(helper: Helper, args: seq<Arg>, reserved: set<string>, bound: set<string>,
                                      between: set<string>, goal: Goal, home: Frame, vals: seq<Value>, frame: Frame, t: Trace)
    requires helper.guards != [] && NewInBlock(Replaced(helper, args, reserved)) !! bound && MeetsAny(helper.guards, goal)
    requires t.script == ReachGuards(helper.guards, goal)
    requires Tells(BodyFrame(home, helper, vals), frame, FullPlan(helper, args, reserved).sub, goal)
    requires RunCall(Recorder(), home, Below(home, between), helper, args, 0, Begin(args, ReachGuards(helper.guards, goal))) ==
             RunBody(Recorder(), BodyFrame(home, helper, vals), helper, 0, t)
    requires RunReplacement(Recorder(), Below(home, between), Replaced(helper, args, reserved), 0,
                            Begin(args, ReachGuards(helper.guards, goal))) ==
             GoesOn(Recorder(), frame, Fill(helper, [], FullPlan(helper, args, reserved).sub), 0, t)
    ensures Differ(helper, args, reserved, bound, between, home, Begin(args, ReachGuards(helper.guards, goal)))
  {
    hide FullPlan, Fill, ReachGuards, BodyFrame, RunCall, RunReplacement, RunBody, GoesOn, RunGuards, Enter, Begin, Tells, MeetsAny,
         Replaced, NewInBlock;
    var sub, f := FullPlan(helper, args, reserved).sub, BodyFrame(home, helper, vals);
    BodyFrameEntered(helper, home, vals);
    assert ReachGuards(helper.guards, goal) + [] == t.script;
    GuardsReach(f, frame, sub, helper.guards, goal, [], t, t);
    GuardsPart(helper, sub, f, frame, 0, t);
  }

  /** An operation of a guard has a scope of its own that hides a new name. */
  lemma {:induction false} GuardHides(helper: Helper, args: seq<Arg>, reserved: set<string>, bound: set<string>,
                                      between: set<string>) returns (home: Frame, s: Trace)
    requires Proper(helper) && |args| <= |helper.params| && ArgNames(args) <= reserved && helper.guards != []
    requires !ClearGuards(FullPlan(helper, args, reserved).sub, helper.guards)
    requires NewInBlock(Replaced(helper, args, reserved)) !! bound
    ensures Differ(helper, args, reserved, bound, between, home, s)
  {
    hide Proper, ArgNames, FullPlan, Fill, ReachGuards, Entered, Plain, BodyFrame, RunCall, RunReplacement, RunBody, GoesOn, RunGuards,
         Begin, Tells, Hiding;
    var sub := FullPlan(helper, args, reserved).sub;
    var reach := ReachGuards(helper.guards, Hiding(sub));
    home := map[];
    s := Begin(args, reach);
    var vals, frame, t := Begins(helper, args, reserved, home, Below(home, between), reach, 0);
    GuardsHide(helper.guards, sub);
    HidingTells(BodyFrame(home, helper, vals), frame, sub);
    GuardsTell(helper, args, reserved, bound, between, Hiding(sub), home, vals, frame, t);
  }

  lemma {:induction false} GuardDiffers(helper: Helper, args: seq<Arg>, reserved: set<string>, home: Frame, env: Frame, frame: Frame,
                                        vals: seq<Value>, next: nat, x: string)
    requires Proper(helper) && Entered(helper, args, reserved, env, frame, vals) && helper.guards != []
    requires forall i: nat :: Plain(ValueAt(vals, i), args, next)
    requires Lookup(home, Ref(x)) == Some(Mark(args)) && Lookup(env, Ref(x)).Some? && x in NamesInAll(helper.guards)
    requires var sub := FullPlan(helper, args, reserved).sub;
             x !in sub && (x in Declared(helper.tail) || x in NewNames(sub) || Lookup(env, Ref(x)) != Some(Mark(args)))
    ensures Differs(BodyFrame(home, helper, vals), frame, FullPlan(helper, args, reserved).sub, x)
  {
    hide FullPlan, BodyFrame, Entered, Plain, Declared, NewNames;
    if x in Declared(helper.tail) {
      LocalParted(helper, args, reserved, home, env, frame, vals, x);
    } else {
      OutsideParted(helper, args, reserved, home, env, frame, vals, next, x);
    }
  }

  /** A local of the tail is not initialized where the guards stand; outside its scope the name means something else. */
  lemma {:induction false} LocalParted(helper: Helper, args: seq<Arg>, reserved: set<string>, home: Frame, env: Frame, frame: Frame,
                                       vals: seq<Value>, x: string)
    requires Proper(helper) && Entered(helper, args, reserved, env, frame, vals) && helper.guards != []
    requires Lookup(env, Ref(x)).Some? && x in Declared(helper.tail) && x !in FullPlan(helper, args, reserved).sub
    ensures Differs(BodyFrame(home, helper, vals), frame, FullPlan(helper, args, reserved).sub, x)
  {
    var plan := FullPlan(helper, args, reserved);
    PlanChooses(helper, args, reserved);
    if x in NewNames(plan.sub) {
      NewNameReads(helper, args, reserved, env, frame, vals, x);
    } else {
      NewInBlockChosen(helper, plan.prefix, plan.sub);
    }
    assert Lookup(BodyFrame(home, helper, vals), Ref(x)) == None;
  }

  /** A tail under the condition takes a name from outside that is a new name. */
  lemma {:induction false} TailCaptures(helper: Helper, args: seq<Arg>, reserved: set<string>, bound: set<string>,
                                            between: set<string>, x: string) returns (home: Frame, s: Trace)
    requires Proper(helper) && |args| <= |helper.params| && ArgNames(args) <= reserved && x in FreeNames(helper.tail)
    requires helper.guards != [] && InTheWay(helper, args, reserved, between, x)
    requires NewInBlock(Replaced(helper, args, reserved)) !! bound
    ensures Differ(helper, args, reserved, bound, between, home, s)
  {
    FreeIsTaken(helper, x);
    hide Proper, ArgNames, Mentions, Declared, FreeNames, NewNames, FullPlan, Fill, ReachStmts, PassGuards, Entered, Plain, BodyFrame, RunCall,
         RunReplacement, RunBody, GoesOn, RunStmts, Enter, Begin, Parted, TakenFromOutside;
    var sub, own := FullPlan(helper, args, reserved).sub, Declared(helper.tail);
    var rest := PassGuards(helper.guards) + ReachStmts(helper.tail, x);
    home := map[x := Some(Mark(args))];
    var env := Below(home, between);
    s := Begin(args, rest);
    var vals, frame, t := Begins(helper, args, reserved, home, env, rest, 0);
    var f := BodyFrame(home, helper, vals);
    OutsideParted(helper, args, reserved, home, env, frame, vals, t.next, x);
    PartedInside(f, frame, sub, x, Mark(args), own);
    BodyFrameEntered(helper, home, vals);
    TailTells(helper, args, reserved, bound, between, x, home, vals, frame, t);
  }

  /** A tail that finds something else in the replacement parts them. */
  lemma {:induction false} TailTells(helper: Helper, args: seq<Arg>, reserved: set<string>, bound: set<string>,
                                     between: set<string>, x: string, home: Frame, vals: seq<Value>, frame: Frame, t: Trace)
    requires helper.guards != [] && NewInBlock(Replaced(helper, args, reserved)) !! bound && x in FreeNames(helper.tail)
    requires t.script == PassGuards(helper.guards) + ReachStmts(helper.tail, x) && OldValue(Mark(args), t.next)
    requires var own := Declared(helper.tail);
             Parted(BodyFrame(home, helper, vals), Enter(frame, own), FullPlan(helper, args, reserved).sub - own, x, Mark(args))
    requires var s := Begin(args, PassGuards(helper.guards) + ReachStmts(helper.tail, x));
             && RunCall(Recorder(), home, Below(home, between), helper, args, 0, s) ==
                  RunBody(Recorder(), BodyFrame(home, helper, vals), helper, 0, t)
             && RunReplacement(Recorder(), Below(home, between), Replaced(helper, args, reserved), 0, s) ==
                  GoesOn(Recorder(), frame, Fill(helper, [], FullPlan(helper, args, reserved).sub), 0, t)
    ensures Differ(helper, args, reserved, bound, between, home, Begin(args, PassGuards(helper.guards) + ReachStmts(helper.tail, x)))
  {
    var sub, own, f := FullPlan(helper, args, reserved).sub, Declared(helper.tail), BodyFrame(home, helper, vals);
    FreeIsTaken(helper, x);
    hide Mentions, Declared, FreeNames, FullPlan, Fill, ReachStmts, PassGuards, BodyFrame, RunCall, RunReplacement, RunBody, GoesOn,
         RunStmts, Enter, Begin, Parted, Replaced, NewInBlock;
    BodyFrameEntered(helper, home, vals);
    var u, y := TailParts(helper, sub, f, frame, 0, ReachStmts(helper.tail, x), t);
    assert u.script == ReachStmts(helper.tail, x) + [];
    StmtsReach(f, Enter(frame, own), sub - own, helper.tail, x, Mark(args), [], 0, u, y);
    assert SubstBlock(sub, helper.tail) == SubstStmts(sub - own, helper.tail);
  }

  lemma {:induction false} FreeIsTaken(helper: Helper, x: string)
    requires x in FreeNames(helper.tail)
    ensures x in TakenFromOutside(helper) && x in Mentions(helper.tail) && x !in Declared(helper.tail)
  {
  }

  /** A tail under the condition, or a block in it, hides a new name. */
  lemma {:induction false} TailHides(helper: Helper, args: seq<Arg>, reserved: set<string>, bound: set<string>,
                                        between: set<string>) returns (home: Frame, s: Trace)
    requires Proper(helper) && |args| <= |helper.params| && ArgNames(args) <= reserved && helper.guards != []
    requires !ClearBlock(FullPlan(helper, args, reserved).sub, helper.tail)
    requires NewInBlock(Replaced(helper, args, reserved)) !! bound
    ensures Differ(helper, args, reserved, bound, between, home, s)
  {
    hide Proper, ArgNames, Mentions, Declared, NewNames, FullPlan, Fill, PassGuards, Entered, BodyFrame, RunCall,
         RunReplacement, RunBody, GoesOn, RunStmts, Enter, Begin, TakenFromOutside, Alike, ClearBlock, SubstBlock;
    var sub := FullPlan(helper, args, reserved).sub;
    var rest := PassGuards(helper.guards) + ReachHiding(sub, helper.tail);
    home := map[];
    var env := Below(home, between);
    s := Begin(args, rest);
    var vals, frame, t := Begins(helper, args, reserved, home, env, rest, 0);
    var f := BodyFrame(home, helper, vals);
    BodyFrameEntered(helper, home, vals);
    var u, y := TailParts(helper, sub, f, frame, 0, ReachHiding(sub, helper.tail), t);
    forall x | x in sub && x in FreeNames(helper.tail)
      ensures Lookup(f, Ref(x)).Some? && OldValue(Lookup(f, Ref(x)).value, u.next)
    {
      ParamReads(helper, args, reserved, home, vals, x);
    }
    HidingReached(f, frame, sub, helper.tail, [], 0, u, y);
  }

  // ---------------------------------------------------------------- the condition

  /**
   Of a tail that lands in the block, no local is mentioned before its declaration, which TypeScript refuses; such a
   mention throws whatever it is called.
   */
  predicate LocalsFirst(helper: Helper) {
    helper.guards == [] ==> DeclaredFirst(Declared(helper.tail), helper.tail)
  }

  /**
   Inlining keeps the meaning of a call: no name is captured, the block may declare the new names, and none of the names
   that the body takes from the top level of the module is declared anew around the call.
   */
  predicate KeepsMeaning(helper: Helper, sub: Subst, declares: set<string>, bound: set<string>, between: set<string>) {
    NoCapture(helper, sub) && declares !! bound && OutsideNames(helper) !! between
  }

  ghost predicate Inlinable(helper: Helper, args: seq<Arg>, reserved: set<string>, bound: set<string>, between: set<string>) {
    KeepsMeaning(helper, FullPlan(helper, args, reserved).sub, NewInBlock(Replaced(helper, args, reserved)), bound, between)
  }

  /** Whatever is in the way, some run shows it. */
  lemma {:induction false} CaptureDiffers(helper: Helper, args: seq<Arg>, reserved: set<string>, bound: set<string>,
                                          between: set<string>) returns (home: Frame, s: Trace)
    requires Proper(helper) && |args| <= |helper.params| && ArgNames(args) <= reserved && LocalsFirst(helper)
    requires !Inlinable(helper, args, reserved, bound, between)
    ensures Differ(helper, args, reserved, bound, between, home, s)
  {
    PlanChooses(helper, args, reserved);
    if !(NewInBlock(Replaced(helper, args, reserved)) !! bound) {
      home, s := map[], Trace([], 0, []);
      RedeclarationDiffers(helper, args, reserved, bound, between, home, s);
    } else if helper.guards == [] {
      home, s := SplicedDiffers(helper, args, reserved, bound, between);
    } else {
      home, s := GuardedDiffers(helper, args, reserved, bound, between);
    }
  }

  /** A name taken from outside, if it is declared around the call, is in the way. */
  lemma {:induction false} OutsideInTheWay(helper: Helper, args: seq<Arg>, reserved: set<string>, between: set<string>, x: string)
    requires Proper(helper) && x in OutsideNames(helper) && x in between
    ensures InTheWay(helper, args, reserved, between, x)
  {
    PlanChooses(helper, args, reserved);
    UsedParamsAre(helper, |helper.params|, x);
  }

  lemma {:induction false} SplicedDiffers(helper: Helper, args: seq<Arg>, reserved: set<string>, bound: set<string>,
                                          between: set<string>) returns (home: Frame, s: Trace)
    requires Proper(helper) && |args| <= |helper.params| && ArgNames(args) <= reserved && LocalsFirst(helper)
    requires !Inlinable(helper, args, reserved, bound, between) && NewInBlock(Replaced(helper, args, reserved)) !! bound
    requires helper.guards == []
    ensures Differ(helper, args, reserved, bound, between, home, s)
  {
    if x :| x in OutsideNames(helper) && x in between {
      OutsideInTheWay(helper, args, reserved, between, x);
      home, s := SplicedCaptures(helper, args, reserved, bound, between, x);
    } else if x :| x in Mentions(helper.tail) && InTheWay(helper, args, reserved, between, x) {
      home, s := SplicedCaptures(helper, args, reserved, bound, between, x);
    } else {
      home, s := SplicedHides(helper, args, reserved, bound, between);
    }
  }

  lemma {:induction false} GuardedDiffers(helper: Helper, args: seq<Arg>, reserved: set<string>, bound: set<string>,
                                          between: set<string>) returns (home: Frame, s: Trace)
    requires Proper(helper) && |args| <= |helper.params| && ArgNames(args) <= reserved
    requires !Inlinable(helper, args, reserved, bound, between) && NewInBlock(Replaced(helper, args, reserved)) !! bound
    requires helper.guards != []
    ensures Differ(helper, args, reserved, bound, between, home, s)
  {
    var sub := FullPlan(helper, args, reserved).sub;
    if x :| x in NamesInAll(helper.guards) && x !in sub && (x in Declared(helper.tail) || InTheWay(helper, args, reserved, between, x)) {
      home, s := GuardCaptures(helper, args, reserved, bound, between, x);
    } else if x :| x in FreeNames(helper.tail) && InTheWay(helper, args, reserved, between, x) {
      home, s := TailCaptures(helper, args, reserved, bound, between, x);
    } else if !ClearGuards(sub, helper.guards) {
      home, s := GuardHides(helper, args, reserved, bound, between);
    } else {
      NothingInTheWay(helper, args, reserved, between);
      home, s := TailHides(helper, args, reserved, bound, between);
    }
  }

  /** If no name is in the way, nothing but hiding is left. */
  lemma {:induction false} NothingInTheWay(helper: Helper, args: seq<Arg>, reserved: set<string>, between: set<string>)
    requires Proper(helper) && helper.guards != []
    requires forall x :: x in TakenFromOutside(helper) && x !in FullPlan(helper, args, reserved).sub ==>
               !InTheWay(helper, args, reserved, between, x)
    requires forall x :: x in NamesInAll(helper.guards) && x !in FullPlan(helper, args, reserved).sub ==> x !in Declared(helper.tail)
    ensures OutsideNames(helper) !! between && NamesInAll(helper.guards) !! Declared(helper.tail)
    ensures var sub := FullPlan(helper, args, reserved).sub; (TakenFromOutside(helper) - sub.Keys) !! NewNames(sub)
  {
    PlanChooses(helper, args, reserved);
    forall x | x in NamesInAll(helper.guards) ensures x !in Declared(helper.tail) {
      UsedParamsAre(helper, |helper.params|, x);
    }
    forall x | x in OutsideNames(helper) ensures x !in between {
      UsedParamsAre(helper, |helper.params|, x);
    }
  }

  /** Names that are not declared on the way mean the same below. */
  lemma {:induction false} SameBelow(helper: Helper, home: Frame, local: Frame)
    requires OutsideNames(helper) !! local.Keys
    ensures SameOutside(helper, home, home + local)
  {
  }

  /**
   Strict-mode inlining does what the call does, on every host, in every scope and for any number of iterations,
   exactly when nothing is in the way: `bound` may not be declared in the block, and `between` are the names declared
   between the top level of the module and the call.
   */
  lemma {:induction false} StrictInlineExact<S>(h: Host<S>, home: Frame, local: Frame, helper: Helper, args: seq<Arg>,
                                                reserved: set<string>, bound: set<string>, between: set<string>, fuel: nat, s: S)
    requires Proper(helper) && |args| <= |helper.params| && ArgNames(args) <= reserved && LocalsFirst(helper)
    requires local.Keys == between
    ensures var (vals, t) := EvalArgs(h, home + local, args, s);
            Inlinable(helper, args, reserved, bound, between) &&
            (vals.Some? ==> AllFlipsOrdered(h, BodyFrame(home, helper, vals.value), helper.guards, t)) ==>
              RunInlined(h, home + local, bound, Replaced(helper, args, reserved), fuel, s) ==
              RunCall(h, home, home + local, helper, args, fuel, s)
    ensures Inlinable(helper, args, reserved, bound, between) <==>
            forall e, l: Frame, n: nat, t :: l.Keys == between ==>
              RunInlined(Recorder(), e + l, bound, Replaced(helper, args, reserved), n, t) ==
              RunCall(Recorder(), e, e + l, helper, args, n, t)
  {
    var (vals, t) := EvalArgs(h, home + local, args, s);
    if Inlinable(helper, args, reserved, bound, between) {
      SameBelow(helper, home, local);
      if vals.Some? ==> AllFlipsOrdered(h, BodyFrame(home, helper, vals.value), helper.guards, t) {
        StrictInlineSound(h, home, home + local, helper, args, reserved, fuel, s);
      }
      forall e, l: Frame, n: nat, t | l.Keys == between
        ensures RunInlined(Recorder(), e + l, bound, Replaced(helper, args, reserved), n, t) ==
                RunCall(Recorder(), e, e + l, helper, args, n, t)
      {
        SameBelow(helper, e, l);
        RecordedSound(e, e + l, helper, args, reserved, n, t);
      }
    } else {
      var e, t := CaptureDiffers(helper, args, reserved, bound, between);
      var l: Frame := map n | n in between :: Some(Undefined);
      assert Below(e, between) == e + l;
    }
  }

  lemma {:induction false} RecordedSound(home: Frame, env: Frame, helper: Helper, args: seq<Arg>, reserved: set<string>,
                                         fuel: nat, s: Trace)
    requires Proper(helper) && |args| <= |helper.params| && ArgNames(args) <= reserved
    requires NoCapture(helper, FullPlan(helper, args, reserved).sub) && SameOutside(helper, home, env)
    ensures RunReplacement(Recorder(), env, Replaced(helper, args, reserved), fuel, s) ==
            RunCall(Recorder(), home, env, helper, args, fuel, s)
  {
    var (vals, t) := EvalArgs(Recorder(), env, args, s);
    if vals.Some? {
      RecorderOrders();
      TotalIsOrdered(Recorder(), BodyFrame(home, helper, vals.value), helper.guards, t);
    }
    StrictInlineSound(Recorder(), home, env, helper, args, reserved, fuel, s);
  }
}
