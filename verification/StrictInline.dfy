/**
 Strict-mode inlining (scripts/inline-functions.ts): replacing a call by the helper's body, with every argument
 evaluated once, in order, beforehand.

 Names are chosen against the caller's block only. So the replacement does what the call does unless a chosen name is
 one that the body takes from outside, or one that a block of the body declares around a replaced name.
 */
module StrictInline {
  import opened Prelude
  import opened InlineExpr
  import opened GuardInversion
  import opened BodyScope
  import opened FreshNames

  /** An argument: a literal, or an operation of the caller; a pure one may still throw, or run a getter. */
  datatype Arg = Literal(v: Value) | Computed(op: nat, refs: seq<Mention>, pure: bool)

  datatype Helper = Helper(params: seq<string>, guards: seq<Expr>, tail: seq<Stmt>)

  datatype Prefix = Evaluate(arg: Arg) | Declare(temp: string, arg: Arg)

  datatype Replacement = Replacement(prefix: seq<Prefix>, condition: Option<Expr>, tail: seq<Stmt>)

  /** Parameters and locals have distinct names, as in every module that parses. */
  predicate Proper(helper: Helper) {
    Distinct(helper.params) && DistinctLocals(helper.tail) && Declared(helper.tail) !! SetOf(helper.params)
  }

  // ---------------------------------------------------------------- calling the helper

  function EvalArg<S>(h: Host<S>, frame: Frame, arg: Arg, s: S): (Option<Value>, S) {
    match arg
    case Literal(v) => (Some(v), s)
    case Computed(op, refs, _) => h.operation(op, SeeAll(frame, refs), s)
  }

  /** ArgumentListEvaluation, section 13.3.8.1 of ECMA-262: left to right, until one throws. */
  function EvalArgs<S>(h: Host<S>, frame: Frame, args: seq<Arg>, s: S): (r: (Option<seq<Value>>, S))
    ensures r.0.Some? ==> |r.0.value| == |args|
  {
    if args == [] then (Some([]), s)
    else
      var (vals, t) := EvalArgs(h, frame, args[..|args| - 1], s);
      if vals.None? then (None, t)
      else
        var (v, u) := EvalArg(h, frame, args[|args| - 1], t);
        if v.None? then (None, u) else (Some(vals.value + [v.value]), u)
  }

  /** Parameters without an argument are undefined. */
  function Bind(params: seq<string>, vals: seq<Value>): Frame {
    if params == [] then map[]
    else
      var last := |params| - 1;
      Bind(params[..last], vals)[params[last] := Some(if last < |vals| then vals[last] else Undefined)]
  }

  /** The scope of the body: `home` is the scope of the helper, which is declared at the top level of the module. */
  function BodyFrame(home: Frame, helper: Helper, vals: seq<Value>): Frame {
    Enter(home + Bind(helper.params, vals), Declared(helper.tail))
  }

  function RunBody<S>(h: Host<S>, frame: Frame, helper: Helper, fuel: nat, s: S): (Outcome, S) {
    var (d, t) := RunGuards(h, frame, helper.guards, s);
    if d.Holds? then RunStmts(h, frame, helper.tail, fuel, t) else (if d.Fails? then Completed else Thrown, t)
  }

  /** The arguments are evaluated in `env`, the scope of the call. */
  function RunCall<S>(h: Host<S>, home: Frame, env: Frame, helper: Helper, args: seq<Arg>, fuel: nat, s: S): (Outcome, S) {
    var (vals, t) := EvalArgs(h, env, args, s);
    if vals.None? then (Thrown, t) else RunBody(h, BodyFrame(home, helper, vals.value), helper, fuel, t)
  }

  // ---------------------------------------------------------------- running the replacement

  function RunPrefix<S>(h: Host<S>, frame: Frame, prefix: seq<Prefix>, s: S): (Option<Frame>, S) {
    if prefix == [] then (Some(frame), s)
    else
      var last := prefix[|prefix| - 1];
      var (f, t) := RunPrefix(h, frame, prefix[..|prefix| - 1], s);
      if f.None? then (None, t)
      else
        var (v, u) := EvalArg(h, f.value, last.arg, t);
        if v.None? then (None, u)
        else (Some(if last.Declare? then f.value[last.temp := v] else f.value), u)
  }

  /** Temporaries a prefix declares, in order. */
  function Temps(prefix: seq<Prefix>): seq<string> {
    if prefix == [] then []
    else
      var last := prefix[|prefix| - 1];
      Temps(prefix[..|prefix| - 1]) + if last.Declare? then [last.temp] else []
  }

  /** What the replacement declares in the caller's block: without a condition, the tail's locals too. */
  function NewInBlock(r: Replacement): set<string> {
    SetOf(Temps(r.prefix)) + if r.condition.None? then Declared(r.tail) else {}
  }

  /** `env` is the scope of the call, with what earlier call sites left in the block. */
  function RunReplacement<S>(h: Host<S>, env: Frame, r: Replacement, fuel: nat, s: S): (Outcome, S) {
    var (f, t) := RunPrefix(h, Enter(env, NewInBlock(r)), r.prefix, s);
    if f.None? then (Thrown, t) else GoesOn(h, f.value, r, fuel, t)
  }

  /**
   The block as a program: it may not declare the names in `bound`, the parameters of the function or the variable of the
   catch clause that it is the body of (sections 15.2.1 and 14.15.1 of ECMA-262).
   */
  function RunInlined<S>(h: Host<S>, env: Frame, bound: set<string>, r: Replacement, fuel: nat, s: S): (Outcome, S) {
    if NewInBlock(r) !! bound then RunReplacement(h, env, r, fuel, s) else (Rejected, s)
  }

  /** What follows the prefix. */
  function GoesOn<S>(h: Host<S>, frame: Frame, r: Replacement, fuel: nat, s: S): (Outcome, S) {
    if r.condition.None? then RunStmts(h, frame, r.tail, fuel, s)
    else
      var (d, t) := Decide(Eval(h, frame, r.condition.value, s));
      if d.Holds? then RunStmts(h, Enter(frame, Declared(r.tail)), r.tail, fuel, t)
      else (if d.Fails? then Completed else Thrown, t)
  }

  // ---------------------------------------------------------------- planning a replacement

  function TakenFromOutside(helper: Helper): set<string> {
    NamesInAll(helper.guards) + FreeNames(helper.tail)
  }

  /** ... and that are neither its parameters nor its locals: they mean what they mean at the top level of the module. */
  function OutsideNames(helper: Helper): set<string> {
    TakenFromOutside(helper) - SetOf(helper.params) - Declared(helper.tail)
  }

  /** The parameter has at least one reference in the body. */
  predicate Used(helper: Helper, p: string) {
    p in TakenFromOutside(helper)
  }

  /** `reserved` holds the names live in the block: those it mentions, and those chosen so far. */
  datatype Plan = Plan(prefix: seq<Prefix>, sub: Subst, reserved: set<string>)

  function TempBase(p: string): string {
    "__inl_" + p
  }

  /** One more parameter: hoist its argument, evaluate it for its effect, or drop it. */
  ghost function PlanParam(helper: Helper, args: seq<Arg>, i: nat, plan: Plan): Plan
    requires i < |helper.params|
  {
    var p := helper.params[i];
    if !Used(helper, p) then
      if i < |args| && !args[i].Literal? then plan.(prefix := plan.prefix + [Evaluate(args[i])]) else plan
    else if i >= |args| then plan.(sub := plan.sub[p := UndefinedText])
    else
      var temp := Fresh(TempBase(p), plan.reserved);
      Plan(plan.prefix + [Declare(temp, args[i])], plan.sub[p := Ref(temp)], plan.reserved + {temp})
  }

  ghost function PlanParams(helper: Helper, args: seq<Arg>, reserved: set<string>, n: nat): Plan
    requires n <= |helper.params|
  {
    if n == 0 then Plan([], map[], reserved)
    else PlanParam(helper, args, n - 1, PlanParams(helper, args, reserved, n - 1))
  }

  /** A local keeps its name unless the name is taken. */
  ghost function LocalName(name: string, taken: set<string>): string {
    if name in taken then Fresh(name, taken) else name
  }

  /** One more statement of a tail that lands in the caller's block. */
  ghost function PlanLocal(stmt: Stmt, plan: Plan): Plan {
    if stmt.Local? then
      var now := LocalName(stmt.name, plan.reserved);
      plan.(sub := plan.sub[stmt.name := Ref(now)], reserved := plan.reserved + {now})
    else plan
  }

  ghost function PlanLocals(tail: seq<Stmt>, plan: Plan, n: nat): Plan
    requires n <= |tail|
  {
    if n == 0 then plan else PlanLocal(tail[n - 1], PlanLocals(tail, plan, n - 1))
  }

  ghost function FullPlan(helper: Helper, args: seq<Arg>, reserved: set<string>): Plan {
    var plan := PlanParams(helper, args, reserved, |helper.params|);
    if helper.guards == [] then PlanLocals(helper.tail, plan, |helper.tail|) else plan
  }

  /** With guards the tail becomes a block of its own under the inverted condition. */
  function Fill(helper: Helper, prefix: seq<Prefix>, sub: Subst): Replacement {
    if helper.guards == [] then Replacement(prefix, None, SubstStmts(sub, helper.tail))
    else Replacement(prefix, Some(Combined(SubstGuards(sub, helper.guards))), SubstBlock(sub, helper.tail))
  }

  ghost function Replaced(helper: Helper, args: seq<Arg>, reserved: set<string>): Replacement {
    var plan := FullPlan(helper, args, reserved);
    Fill(helper, plan.prefix, plan.sub)
  }

  /** The names that replace others. */
  function NewNames(sub: Subst): set<string> {
    set x | x in sub && sub[x].Ref? :: sub[x].name
  }

  ghost predicate Injective(sub: Subst) {
    forall x, y :: x in sub && y in sub && x != y && sub[x].Ref? ==> sub[x] != sub[y]
  }

  /** All new names are distinct and new to the block, and reserved afterwards. */
  ghost predicate Chosen(plan: Plan, reserved: set<string>) {
    && Injective(plan.sub) && NewNames(plan.sub) !! reserved && plan.reserved == reserved + NewNames(plan.sub)
    && Distinct(Temps(plan.prefix)) && SetOf(Temps(plan.prefix)) <= NewNames(plan.sub)
  }

  lemma {:induction false} ChooseOne(plan: Plan, reserved: set<string>, x: string, now: string)
    requires Chosen(plan, reserved) && x !in plan.sub && now !in plan.reserved
    ensures Chosen(plan.(sub := plan.sub[x := Ref(now)], reserved := plan.reserved + {now}), reserved)
    ensures NewNames(plan.sub[x := Ref(now)]) == NewNames(plan.sub) + {now}
  {
    var after := plan.sub[x := Ref(now)];
    NewNamesMore(plan.sub, x, Ref(now));
    forall y, z | y in after && z in after && y != z && after[y].Ref? ensures after[y] != after[z] {
      assert y != x ==> plan.sub[y].name in NewNames(plan.sub);
      assert z != x && plan.sub[z].Ref? ==> plan.sub[z].name in NewNames(plan.sub);
    }
  }

  lemma {:induction false} NewNamesMore(sub: Subst, x: string, o: Operand)
    requires x !in sub
    ensures NewNames(sub[x := o]) == NewNames(sub) + if o.Ref? then {o.name} else {}
  {
    var after := sub[x := o];
    assert after[x] == o;
    forall n | n in NewNames(sub) ensures n in NewNames(after) {
      var y :| y in sub && sub[y].Ref? && sub[y].name == n;
      assert after[y] == sub[y];
    }
  }

  lemma {:induction false} ChooseNone(plan: Plan, reserved: set<string>, x: string)
    requires Chosen(plan, reserved) && x !in plan.sub
    ensures Chosen(plan.(sub := plan.sub[x := UndefinedText]), reserved)
    ensures NewNames(plan.sub[x := UndefinedText]) == NewNames(plan.sub)
  {
    NewNamesMore(plan.sub, x, UndefinedText);
  }

  /** The used ones of the first `n` parameters. */
  function UsedParams(helper: Helper, n: nat): set<string>
    requires n <= |helper.params|
  {
    if n == 0 then {}
    else UsedParams(helper, n - 1) + if Used(helper, helper.params[n - 1]) then {helper.params[n - 1]} else {}
  }

  lemma {:induction false} UsedParamsAre(helper: Helper, n: nat, x: string)
    requires n <= |helper.params|
    ensures x in UsedParams(helper, n) <==> Used(helper, x) && exists i :: 0 <= i < n && helper.params[i] == x
  {
    if n > 0 {
      UsedParamsAre(helper, n - 1, x);
    }
  }

  lemma {:induction false} PlanParamsChoose(helper: Helper, args: seq<Arg>, reserved: set<string>, n: nat)
    requires Distinct(helper.params) && n <= |helper.params|
    ensures var plan := PlanParams(helper, args, reserved, n);
            && Chosen(plan, reserved) && SetOf(Temps(plan.prefix)) == NewNames(plan.sub)
            && plan.sub.Keys == UsedParams(helper, n)
  {
    if n > 0 {
      PlanParamsChoose(helper, args, reserved, n - 1);
      UsedParamsAre(helper, n - 1, helper.params[n - 1]);
      hide Chosen, Used, Temps;
      ParamChooses(helper, args, reserved, n - 1, PlanParams(helper, args, reserved, n - 1));
    }
  }

  lemma {:induction false} ParamChooses(helper: Helper, args: seq<Arg>, reserved: set<string>, i: nat, plan: Plan)
    requires i < |helper.params| && Chosen(plan, reserved) && helper.params[i] !in plan.sub
    requires SetOf(Temps(plan.prefix)) == NewNames(plan.sub)
    ensures var after := PlanParam(helper, args, i, plan);
            && Chosen(after, reserved) && SetOf(Temps(after.prefix)) == NewNames(after.sub)
            && after.sub.Keys == plan.sub.Keys + if Used(helper, helper.params[i]) then {helper.params[i]} else {}
  {
    hide Chosen, Used, Temps, NewNames;
    var p := helper.params[i];
    if !Used(helper, p) {
      if i < |args| {
        EffectChooses(plan, reserved, args[i]);
      }
    } else if i >= |args| {
      ChooseNone(plan, reserved, p);
    } else {
      HoistChooses(plan, reserved, p, Fresh(TempBase(p), plan.reserved), args[i]);
    }
  }

  lemma {:induction false} EffectChooses(plan: Plan, reserved: set<string>, arg: Arg)
    requires Chosen(plan, reserved)
    ensures var prefix := plan.prefix + [Evaluate(arg)];
            Chosen(plan.(prefix := prefix), reserved) && Temps(prefix) == Temps(plan.prefix)
  {
    TempsMore(plan.prefix, Evaluate(arg));
  }

  lemma {:induction false} HoistChooses(plan: Plan, reserved: set<string>, p: string, temp: string, arg: Arg)
    requires Chosen(plan, reserved) && p !in plan.sub && temp !in plan.reserved
    requires SetOf(Temps(plan.prefix)) == NewNames(plan.sub)
    ensures var after := Plan(plan.prefix + [Declare(temp, arg)], plan.sub[p := Ref(temp)], plan.reserved + {temp});
            Chosen(after, reserved) && SetOf(Temps(after.prefix)) == NewNames(after.sub)
  {
    assert temp !in SetOf(Temps(plan.prefix));
    ChooseOne(plan, reserved, p, temp);
    TempsMore(plan.prefix, Declare(temp, arg));
    OneMoreTemp(Temps(plan.prefix), temp);
  }

  lemma {:induction false} TempsMore(prefix: seq<Prefix>, one: Prefix)
    ensures Temps(prefix + [one]) == Temps(prefix) + if one.Declare? then [one.temp] else []
  {
    assert (prefix + [one])[..|prefix|] == prefix;
  }

  lemma {:induction false} OneMoreTemp(temps: seq<string>, temp: string)
    requires Distinct(temps) && temp !in SetOf(temps)
    ensures Distinct(temps + [temp]) && SetOf(temps + [temp]) == SetOf(temps) + {temp}
  {
    var all := temps + [temp];
    assert all[|temps|] == temp && forall i :: 0 <= i < |temps| ==> all[i] == temps[i];
    assert forall i :: 0 <= i < |temps| ==> temps[i] in SetOf(temps);
  }

  // ---------------------------------------------------------------- locals that land in the block

  lemma {:induction false} LocalChooses(stmt: Stmt, plan: Plan, reserved: set<string>)
    requires Chosen(plan, reserved) && (stmt.Local? ==> stmt.name !in plan.sub)
    ensures var after := PlanLocal(stmt, plan);
            && Chosen(after, reserved) && after.prefix == plan.prefix && plan.reserved <= after.reserved
            && after.sub.Keys == plan.sub.Keys + (if stmt.Local? then {stmt.name} else {})
            && forall x :: x in plan.sub ==> after.sub[x] == plan.sub[x]
  {
    if stmt.Local? {
      ChooseOne(plan, reserved, stmt.name, LocalName(stmt.name, plan.reserved));
    }
  }

  /** The locals among the first `n` statements. */
  function DeclaredTo(tail: seq<Stmt>, n: nat): set<string>
    requires n <= |tail|
  {
    if n == 0 then {} else DeclaredTo(tail, n - 1) + if tail[n - 1].Local? then {tail[n - 1].name} else {}
  }

  lemma {:induction false} DeclaredToAll(tail: seq<Stmt>, n: nat)
    requires n <= |tail|
    ensures DeclaredTo(tail, n) + Declared(tail[n..]) == Declared(tail)
  {
    if n == 0 {
      assert tail[0..] == tail;
    } else {
      DeclaredToAll(tail, n - 1);
      assert tail[n - 1..][1..] == tail[n..];
    }
  }

  lemma {:induction false} LocalsDistinct(tail: seq<Stmt>, n: nat)
    requires DistinctLocals(tail) && n < |tail| && tail[n].Local?
    ensures tail[n].name !in DeclaredTo(tail, n)
  {
    if n > 0 {
      FirstIsDistinct(tail, n);
      LocalsDistinct(tail[1..], n - 1);
      DeclaredToShift(tail, n);
    }
  }

  lemma {:induction false} FirstIsDistinct(tail: seq<Stmt>, n: nat)
    requires DistinctLocals(tail) && 0 < n < |tail| && tail[n].Local?
    ensures tail[n].name in Declared(tail[1..]) && (tail[0].Local? ==> tail[0].name != tail[n].name)
  {
    DeclaredAt(tail[1..], n - 1);
  }

  lemma {:induction false} DeclaredAt(tail: seq<Stmt>, n: nat)
    requires n < |tail| && tail[n].Local?
    ensures tail[n].name in Declared(tail)
  {
    if n > 0 {
      DeclaredAt(tail[1..], n - 1);
    }
  }

  lemma {:induction false} DeclaredToShift(tail: seq<Stmt>, n: nat)
    requires 0 < n <= |tail|
    ensures DeclaredTo(tail, n) == (if tail[0].Local? then {tail[0].name} else {}) + DeclaredTo(tail[1..], n - 1)
  {
    if n > 1 {
      DeclaredToShift(tail, n - 1);
    }
  }

  lemma {:induction false} PlanLocalsChoose(tail: seq<Stmt>, plan: Plan, reserved: set<string>, n: nat)
    requires Chosen(plan, reserved) && DistinctLocals(tail) && Declared(tail) !! plan.sub.Keys && n <= |tail|
    ensures var after := PlanLocals(tail, plan, n);
            && Chosen(after, reserved) && after.prefix == plan.prefix && plan.reserved <= after.reserved
            && after.sub.Keys == plan.sub.Keys + DeclaredTo(tail, n)
            && forall x :: x in plan.sub ==> after.sub[x] == plan.sub[x]
  {
    if n > 0 {
      PlanLocalsChoose(tail, plan, reserved, n - 1);
      if tail[n - 1].Local? {
        LocalsDistinct(tail, n - 1);
        DeclaredAt(tail, n - 1);
      }
      hide Chosen, DistinctLocals, PlanLocal;
      LocalChooses(tail[n - 1], PlanLocals(tail, plan, n - 1), reserved);
    }
  }

  lemma {:induction false} LocalsAreNamed(tail: seq<Stmt>, plan: Plan, n: nat, x: string)
    requires n <= |tail| && x in DeclaredTo(tail, n)
    ensures var sub := PlanLocals(tail, plan, n).sub; x in sub && sub[x].Ref?
  {
    if !tail[n - 1].Local? || x != tail[n - 1].name {
      LocalsAreNamed(tail, plan, n - 1, x);
    }
  }

  /** What is known of a full plan. */
  lemma {:induction false} PlanChooses(helper: Helper, args: seq<Arg>, reserved: set<string>)
    requires Proper(helper)
    ensures var plan, params := FullPlan(helper, args, reserved), PlanParams(helper, args, reserved, |helper.params|);
            && Chosen(plan, reserved) && plan.prefix == params.prefix
            && plan.sub.Keys == UsedParams(helper, |helper.params|) + (if helper.guards == [] then Declared(helper.tail) else {})
            && (forall x :: x in params.sub ==> x in plan.sub && plan.sub[x] == params.sub[x])
            && (helper.guards == [] ==> NamesLocals(plan.sub, Declared(helper.tail)))
  {
    var params, tail := PlanParams(helper, args, reserved, |helper.params|), helper.tail;
    PlanParamsChoose(helper, args, reserved, |helper.params|);
    if helper.guards == [] {
      forall x | x in params.sub ensures x !in Declared(tail) {
        UsedParamsAre(helper, |helper.params|, x);
      }
      PlanLocalsChoose(tail, params, reserved, |tail|);
      DeclaredToAll(tail, |tail|);
      forall x | x in Declared(tail) ensures FullPlan(helper, args, reserved).sub[x].Ref? {
        LocalsAreNamed(tail, params, |tail|, x);
      }
    }
  }

  // ---------------------------------------------------------------- the passes

  /** Run one call site's plan in strict mode. `reserved` holds the names live in the target block. */
  method BuildReplacement(helper: Helper, args: seq<Arg>, reserved: set<string>)
    returns (r: Replacement, taken: set<string>)
    requires Proper(helper)
    ensures r == Replaced(helper, args, reserved) && taken == FullPlan(helper, args, reserved).reserved
    ensures Distinct(Temps(r.prefix)) && NewInBlock(r) !! reserved && reserved + NewInBlock(r) <= taken
  {
    var prefix: seq<Prefix> := [];
    var sub: Subst := map[];
    taken := reserved;
    for i := 0 to |helper.params|
      invariant Plan(prefix, sub, taken) == PlanParams(helper, args, reserved, i)
    {
      var p := helper.params[i];
      if !Used(helper, p) {
        if i < |args| {
          if args[i].Computed? && !args[i].pure {
            prefix := prefix + [Evaluate(args[i])];
          } else if !args[i].Literal? {
            prefix := prefix + [Evaluate(args[i])];
          }
        }
      } else if i >= |args| {
        sub := sub[p := UndefinedText];
      } else {
        var temp := FreshName(TempBase(p), taken);
        taken := taken + {temp};
        prefix := prefix + [Declare(temp, args[i])];
        sub := sub[p := Ref(temp)];
      }
    }
    PlanParamsChoose(helper, args, reserved, |helper.params|);
    if helper.guards == [] {
      forall x | x in sub ensures x !in Declared(helper.tail) {
        UsedParamsAre(helper, |helper.params|, x);
      }
      sub, taken := RenameCollidingLocals(helper.tail, sub, taken, prefix);
    }
    PlanChooses(helper, args, reserved);
    NewInBlockChosen(helper, prefix, sub);
    r := Fill(helper, prefix, sub);
  }

  /** The locals of a tail that lands in the block: taken names are replaced, and all of them are taken afterwards. */
  method RenameCollidingLocals(tail: seq<Stmt>, sub0: Subst, taken0: set<string>, ghost prefix: seq<Prefix>)
    returns (sub: Subst, taken: set<string>)
    requires DistinctLocals(tail) && Declared(tail) !! sub0.Keys
    ensures Plan(prefix, sub, taken) == PlanLocals(tail, Plan(prefix, sub0, taken0), |tail|)
    ensures forall x :: x in sub0 ==> x in sub && sub[x] == sub0[x]
    ensures taken0 <= taken && LocalsNamed(tail, sub, taken0, taken, |tail|)
  {
    sub, taken := sub0, taken0;
    for i := 0 to |tail|
      invariant Plan(prefix, sub, taken) == PlanLocals(tail, Plan(prefix, sub0, taken0), i)
    {
      if tail[i].Local? {
        var original := tail[i].name;
        if original !in taken {
          taken := taken + {original};
          sub := sub[original := Ref(original)];
        } else {
          var now := FreshName(original, taken);
          taken := taken + {now};
          sub := sub[original := Ref(now)];
        }
      }
    }
    LocalsAreNew(tail, Plan(prefix, sub0, taken0), |tail|);
  }

  /**
   Every local among the first `n` statements has a name that was free and is taken now, its own if that was free; and no
   two have the same.
   */
  ghost predicate LocalsNamed(tail: seq<Stmt>, sub: Subst, before: set<string>, after: set<string>, n: nat)
    requires n <= |tail|
  {
    && (forall i :: 0 <= i < n && tail[i].Local? ==> LocalNamed(tail[i].name, sub, before, after))
    && (forall i, j :: 0 <= i < j < n && tail[i].Local? && tail[j].Local? ==> sub[tail[i].name] != sub[tail[j].name])
  }

  ghost predicate LocalNamed(name: string, sub: Subst, before: set<string>, after: set<string>) {
    name in sub && sub[name].Ref? && sub[name].name !in before && sub[name].name in after
  }

  lemma {:induction false} LocalsAreNew(tail: seq<Stmt>, plan: Plan, n: nat)
    requires DistinctLocals(tail) && Declared(tail) !! plan.sub.Keys && n <= |tail|
    ensures var after := PlanLocals(tail, plan, n);
            && (forall x :: x in plan.sub ==> x in after.sub && after.sub[x] == plan.sub[x])
            && plan.reserved <= after.reserved && LocalsNamed(tail, after.sub, plan.reserved, after.reserved, n)
  {
    if n > 0 {
      LocalsAreNew(tail, plan, n - 1);
      if tail[n - 1].Local? {
        DeclaredAt(tail, n - 1);
        forall i | 0 <= i < n - 1 && tail[i].Local? ensures tail[i].name != tail[n - 1].name {
          LocalsDiffer(tail, i, n - 1);
        }
      }
    }
  }

  lemma {:induction false} LocalsDiffer(tail: seq<Stmt>, i: nat, j: nat)
    requires DistinctLocals(tail) && i < j < |tail| && tail[i].Local? && tail[j].Local?
    ensures tail[i].name != tail[j].name
  {
    if i > 0 {
      LocalsDiffer(tail[1..], i - 1, j - 1);
    } else {
      DeclaredAt(tail[1..], j - 1);
    }
  }

  lemma {:induction false} RenamedDeclared(sub: Subst, tail: seq<Stmt>, n: string)
    requires n in Declared(SubstStmts(sub, tail))
    ensures exists x :: x in Declared(tail) && n == Rename(sub, x)
  {
    if tail[0].Local? && n == Rename(sub, tail[0].name) {
      assert tail[0].name in Declared(tail);
    } else {
      RenamedDeclared(sub, tail[1..], n);
    }
  }

  lemma {:induction false} RenamedIsDeclared(sub: Subst, tail: seq<Stmt>, x: string)
    requires x in Declared(tail)
    ensures Rename(sub, x) in Declared(SubstStmts(sub, tail))
  {
    if !(tail[0].Local? && x == tail[0].name) {
      RenamedIsDeclared(sub, tail[1..], x);
    }
  }

  lemma {:induction false} NewInBlockChosen(helper: Helper, prefix: seq<Prefix>, sub: Subst)
    requires SetOf(Temps(prefix)) <= NewNames(sub)
    requires helper.guards == [] ==> Declared(helper.tail) <= sub.Keys && NamesLocals(sub, Declared(helper.tail))
    ensures NewInBlock(Fill(helper, prefix, sub)) <= NewNames(sub)
  {
    if helper.guards == [] {
      forall n | n in Declared(SubstStmts(sub, helper.tail)) ensures n in NewNames(sub) {
        RenamedDeclared(sub, helper.tail, n);
      }
    }
  }

  /** One plan after the other, each with the names that the earlier ones chose reserved as well. */
  ghost function PlansOf(helper: Helper, calls: seq<seq<Arg>>, reserved: set<string>): (plans: seq<Replacement>)
    ensures |plans| == |calls|
  {
    if calls == [] then []
    else
      var more := FullPlan(helper, calls[0], reserved).reserved;
      [Replaced(helper, calls[0], reserved)] + PlansOf(helper, calls[1..], more)
  }

  /** All call sites in one target block share its reserved names, so all that they declare there differs. */
  method PlanCallSites(helper: Helper, calls: seq<seq<Arg>>, reserved: set<string>) returns (plans: seq<Replacement>)
    requires Proper(helper)
    ensures plans == PlansOf(helper, calls, reserved)
    ensures |plans| == |calls|
    ensures forall i :: 0 <= i < |plans| ==> Distinct(Temps(plans[i].prefix)) && NewInBlock(plans[i]) !! reserved
    ensures forall i, j :: 0 <= i < j < |plans| ==> NewInBlock(plans[i]) !! NewInBlock(plans[j])
  {
    plans := [];
    var taken := reserved;
    hide *;
    NothingPlanned(helper, calls, reserved);
    for i := 0 to |calls|
      invariant |plans| == i && Proper(helper)
      invariant plans + PlansOf(helper, calls[i..], taken) == PlansOf(helper, calls, reserved)
    {
      var r, more := BuildReplacement(helper, calls[i], taken);
      PlansGoOn(helper, calls, i, taken, plans);
      plans := plans + [r];
      taken := more;
    }
    AllPlanned(helper, calls, taken, plans);
    PlansApart(helper, calls, reserved);
    ApartAll(plans, reserved);
  }

  lemma {:induction false} AllPlanned(helper: Helper, calls: seq<seq<Arg>>, taken: set<string>, plans: seq<Replacement>)
    ensures plans + PlansOf(helper, calls[|calls|..], taken) == plans
  {
  }

  lemma {:induction false} NothingPlanned(helper: Helper, calls: seq<seq<Arg>>, reserved: set<string>)
    ensures [] + PlansOf(helper, calls[0..], reserved) == PlansOf(helper, calls, reserved)
  {
    assert calls[0..] == calls;
  }

  lemma {:induction false} PlansGoOn(helper: Helper, calls: seq<seq<Arg>>, i: nat, taken: set<string>, plans: seq<Replacement>)
    requires i < |calls|
    ensures var r, more := Replaced(helper, calls[i], taken), FullPlan(helper, calls[i], taken).reserved;
            plans + PlansOf(helper, calls[i..], taken) == plans + [r] + PlansOf(helper, calls[i + 1..], more)
  {
    hide Replaced, FullPlan;
    assert calls[i..][1..] == calls[i + 1..];
  }

  /** What one plan declares is new, and reserved for the next. */
  lemma {:induction false} PlanIsNew(helper: Helper, args: seq<Arg>, reserved: set<string>)
    requires Proper(helper)
    ensures var r, taken := Replaced(helper, args, reserved), FullPlan(helper, args, reserved).reserved;
            Distinct(Temps(r.prefix)) && NewInBlock(r) !! reserved && reserved + NewInBlock(r) <= taken
  {
    var plan := FullPlan(helper, args, reserved);
    PlanChooses(helper, args, reserved);
    NewInBlockChosen(helper, plan.prefix, plan.sub);
  }

  /** All plans keep away from the names reserved before, and from each other. */
  predicate Apart(plans: seq<Replacement>, reserved: set<string>) {
    plans == [] ||
    (PlanApart(plans[0], reserved) && Apart(plans[1..], reserved + NewInBlock(plans[0])))
  }

  predicate PlanApart(r: Replacement, reserved: set<string>) {
    Distinct(Temps(r.prefix)) && NewInBlock(r) !! reserved
  }

  lemma {:induction false} ApartFromLess(plans: seq<Replacement>, reserved: set<string>, less: set<string>)
    requires Apart(plans, reserved) && less <= reserved
    ensures Apart(plans, less)
  {
    if plans != [] {
      ApartFromLess(plans[1..], reserved + NewInBlock(plans[0]), less + NewInBlock(plans[0]));
    }
  }

  lemma {:induction false} ApartAt(plans: seq<Replacement>, reserved: set<string>, j: nat)
    requires Apart(plans, reserved) && j < |plans|
    ensures PlanApart(plans[j], reserved) && forall i :: 0 <= i < j ==> NewInBlock(plans[i]) !! NewInBlock(plans[j])
  {
    if j > 0 {
      var rest := plans[1..];
      ApartAt(rest, reserved + NewInBlock(plans[0]), j - 1);
      forall i | 0 <= i < j ensures NewInBlock(plans[i]) !! NewInBlock(plans[j]) {
        assert i > 0 ==> plans[i] == rest[i - 1];
      }
    }
  }

  lemma {:induction false} ApartAll(plans: seq<Replacement>, reserved: set<string>)
    requires Apart(plans, reserved)
    ensures forall i :: 0 <= i < |plans| ==> Distinct(Temps(plans[i].prefix)) && NewInBlock(plans[i]) !! reserved
    ensures forall i, j :: 0 <= i < j < |plans| ==> NewInBlock(plans[i]) !! NewInBlock(plans[j])
  {
    forall j | 0 <= j < |plans|
      ensures PlanApart(plans[j], reserved) && forall i :: 0 <= i < j ==> NewInBlock(plans[i]) !! NewInBlock(plans[j])
    {
      ApartAt(plans, reserved, j);
    }
  }

  lemma {:induction false} PlansApart(helper: Helper, calls: seq<seq<Arg>>, reserved: set<string>)
    requires Proper(helper)
    ensures Apart(PlansOf(helper, calls, reserved), reserved)
  {
    if calls != [] {
      var plans, plan := PlansOf(helper, calls, reserved), FullPlan(helper, calls[0], reserved);
      PlanIsNew(helper, calls[0], reserved);
      PlansApart(helper, calls[1..], plan.reserved);
      assert plans[1..] == PlansOf(helper, calls[1..], plan.reserved);
      ApartFromLess(plans[1..], plan.reserved, reserved + NewInBlock(plans[0]));
    }
  }

  /** The rest of the block sees what it saw: none of the names in it is a new one. */
  lemma {:induction false} BlockUndisturbed(helper: Helper, args: seq<Arg>, reserved: set<string>, env: Frame, name: string)
    requires Proper(helper) && name in reserved
    ensures Lookup(Enter(env, NewInBlock(Replaced(helper, args, reserved))), Ref(name)) == Lookup(env, Ref(name))
  {
    var plan := FullPlan(helper, args, reserved);
    PlanChooses(helper, args, reserved);
    NewInBlockChosen(helper, plan.prefix, plan.sub);
  }
}
