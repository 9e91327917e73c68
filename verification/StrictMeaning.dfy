/** Why strict-mode inlining equals the call: the prefix evaluates the arguments, and what follows reads the same. */
module StrictMeaning {
  import opened Prelude
  import opened InlineExpr
  import opened GuardInversion
  import opened BodyScope
  import opened FreshNames
  import opened StrictInline

  // ---------------------------------------------------------------- the prefix evaluates the arguments

  function ArgNames(args: seq<Arg>): set<string> {
    set i, x | 0 <= i < |args| && args[i].Computed? && x in NamesOf(args[i].refs) :: x
  }

  function ValueAt(vals: seq<Value>, i: nat): Value {
    if i < |vals| then vals[i] else Undefined
  }

  ghost predicate BoundParam(helper: Helper, frame: Frame, sub: Subst, p: string, v: Value) {
    Used(helper, p) ==> p in sub && Lookup(frame, sub[p]) == Some(v)
  }

  /** Nothing but temporaries differs from the block as it was entered. */
  ghost predicate OnlyTemps(frame: Frame, block: Frame, prefix: seq<Prefix>) {
    forall x :: x !in SetOf(Temps(prefix)) ==> Lookup(frame, Ref(x)) == Lookup(block, Ref(x))
  }

  /** What replaces a used one of the first `n` parameters reads its argument's value. */
  ghost predicate Bound(helper: Helper, frame: Frame, sub: Subst, vals: seq<Value>, n: nat)
    requires n <= |helper.params|
  {
    forall i :: 0 <= i < n ==> BoundParam(helper, frame, sub, helper.params[i], ValueAt(vals, i))
  }

  /** The block reads the names of the arguments as the scope of the call does. */
  ghost predicate SameReserved(env: Frame, block: Frame, reserved: set<string>) {
    forall x :: x in reserved ==> Lookup(block, Ref(x)) == Lookup(env, Ref(x))
  }

  /** The first `i` arguments, or all of them. */
  function Upto(args: seq<Arg>, i: nat): seq<Arg> {
    args[..if i < |args| then i else |args|]
  }

  lemma {:induction false} ArgReads<S>(h: Host<S>, env: Frame, block: Frame, frame: Frame, prefix: seq<Prefix>,
                                       reserved: set<string>, args: seq<Arg>, i: nat, s: S)
    requires i < |args| && ArgNames(args) <= reserved && SameReserved(env, block, reserved)
    requires OnlyTemps(frame, block, prefix) && SetOf(Temps(prefix)) !! reserved
    ensures EvalArg(h, frame, args[i], s) == EvalArg(h, env, args[i], s)
  {
    if args[i].Computed? {
      var refs := args[i].refs;
      forall k | 0 <= k < |refs| ensures See(frame, refs[k]) == See(env, refs[k]) {
        var o := refs[k].o;
        if o.Ref? && refs[k].Free() {
          assert o.name in NamesOf(refs);
          assert o.name in ArgNames(args) && o == Ref(o.name);
        }
      }
      assert SeeAll(frame, refs) == SeeAll(env, refs);
    }
  }

  /** Evaluating one more argument. */
  lemma {:induction false} ArgsMore<S>(h: Host<S>, env: Frame, args: seq<Arg>, i: nat, s: S)
    requires i < |args|
    ensures var (vals, t) := EvalArgs(h, env, Upto(args, i), s);
            EvalArgs(h, env, Upto(args, i + 1), s) ==
            if vals.None? then (None, t)
            else
              var (v, u) := EvalArg(h, env, args[i], t);
              if v.None? then (None, u) else (Some(vals.value + [v.value]), u)
  {
    assert args[..i + 1][..i] == args[..i];
  }

  lemma {:induction false} PrefixMore<S>(h: Host<S>, block: Frame, prefix: seq<Prefix>, one: Prefix, s: S)
    ensures var (f, t) := RunPrefix(h, block, prefix, s);
            RunPrefix(h, block, prefix + [one], s) ==
            if f.None? then (None, t)
            else
              var (v, u) := EvalArg(h, f.value, one.arg, t);
              if v.None? then (None, u) else (Some(if one.Declare? then f.value[one.temp := v] else f.value), u)
  {
    assert (prefix + [one])[..|prefix|] == prefix;
  }

  /** The prefix of a plan for `n` parameters, run as `p`, did what evaluating their arguments, `r`, does. */
  ghost predicate PrefixOk<S>(helper: Helper, block: Frame, plan: Plan, n: nat, r: (Option<seq<Value>>, S), p: (Option<Frame>, S))
    requires n <= |helper.params|
  {
    && p.1 == r.1 && (p.0.None? <==> r.0.None?)
    && (p.0.Some? && r.0.Some? ==>
          Bound(helper, p.0.value, plan.sub, r.0.value, n) && OnlyTemps(p.0.value, block, plan.prefix))
  }

  lemma {:induction false} BoundKept(helper: Helper, frame: Frame, sub: Subst, vals: seq<Value>, n: nat, v: Value)
    requires n <= |helper.params| && n <= |vals| && Bound(helper, frame, sub, vals, n)
    ensures Bound(helper, frame, sub, vals + [v], n)
  {
    forall i | 0 <= i < n ensures BoundParam(helper, frame, sub, helper.params[i], ValueAt(vals + [v], i)) {
      assert BoundParam(helper, frame, sub, helper.params[i], ValueAt(vals, i));
    }
  }

  /** A new temporary disturbs none of the earlier ones. */
  lemma {:induction false} BoundMore(helper: Helper, frame: Frame, sub: Subst, vals: seq<Value>, n: nat, o: Operand,
                                     temp: string, v: Option<Value>)
    requires Distinct(helper.params) && n < |helper.params| && Bound(helper, frame, sub, vals, n)
    requires temp !in NewNames(sub) && Lookup(frame[temp := v], o) == Some(ValueAt(vals, n))
    ensures Bound(helper, frame[temp := v], sub[helper.params[n] := o], vals, n + 1)
  {
    var f, more := frame[temp := v], sub[helper.params[n] := o];
    forall i | 0 <= i < n + 1 ensures BoundParam(helper, f, more, helper.params[i], ValueAt(vals, i)) {
      if i < n {
        assert BoundParam(helper, frame, sub, helper.params[i], ValueAt(vals, i));
        assert helper.params[i] != helper.params[n];
      }
    }
  }

  lemma {:induction false} BoundUndefined(helper: Helper, frame: Frame, sub: Subst, vals: seq<Value>, n: nat)
    requires Distinct(helper.params) && |vals| <= n < |helper.params| && Bound(helper, frame, sub, vals, n)
    ensures Bound(helper, frame, sub[helper.params[n] := UndefinedText], vals, n + 1)
  {
    var more := sub[helper.params[n] := UndefinedText];
    forall i | 0 <= i < n + 1 ensures BoundParam(helper, frame, more, helper.params[i], ValueAt(vals, i)) {
      if i < n {
        assert BoundParam(helper, frame, sub, helper.params[i], ValueAt(vals, i));
        assert helper.params[i] != helper.params[n];
      }
    }
  }

  lemma {:induction false} BoundUnused(helper: Helper, frame: Frame, sub: Subst, vals: seq<Value>, n: nat)
    requires n < |helper.params| && Bound(helper, frame, sub, vals, n) && !Used(helper, helper.params[n])
    ensures Bound(helper, frame, sub, vals, n + 1)
  {
    assert BoundParam(helper, frame, sub, helper.params[n], ValueAt(vals, n));
  }

  /** A parameter without an argument, or whose argument is a literal nobody needs, adds nothing to the prefix. */
  lemma {:induction false} DroppedStep<S>(h: Host<S>, env: Frame, block: Frame, helper: Helper, args: seq<Arg>, before: Plan,
                                          i: nat, s: S)
    requires Distinct(helper.params) && i < |helper.params|
    requires i < |args| ==> args[i].Literal? && !Used(helper, helper.params[i])
    requires PrefixOk(helper, block, before, i, EvalArgs(h, env, Upto(args, i), s), RunPrefix(h, block, before.prefix, s))
    ensures var plan := PlanParam(helper, args, i, before);
            PrefixOk(helper, block, plan, i + 1, EvalArgs(h, env, Upto(args, i + 1), s), RunPrefix(h, block, plan.prefix, s))
  {
    hide Used, Bound, OnlyTemps, RunPrefix;
    var vals, f := EvalArgs(h, env, Upto(args, i), s).0, RunPrefix(h, block, before.prefix, s).0;
    if i < |args| {
      ArgsMore(h, env, args, i, s);
      if f.Some? {
        BoundKept(helper, f.value, before.sub, vals.value, i, args[i].v);
        BoundUnused(helper, f.value, before.sub, vals.value + [args[i].v], i);
      }
    } else if f.Some? {
      if Used(helper, helper.params[i]) {
        BoundUndefined(helper, f.value, before.sub, vals.value, i);
      } else {
        BoundUnused(helper, f.value, before.sub, vals.value, i);
      }
    }
  }

  /** An argument that is needed for its effect alone. */
  lemma {:induction false} EffectStep<S>(h: Host<S>, env: Frame, block: Frame, helper: Helper, args: seq<Arg>,
                                         reserved: set<string>, before: Plan, i: nat, s: S)
    requires i < |helper.params| && i < |args| && !Used(helper, helper.params[i])
    requires ArgNames(args) <= reserved && SameReserved(env, block, reserved) && SetOf(Temps(before.prefix)) !! reserved
    requires PrefixOk(helper, block, before, i, EvalArgs(h, env, Upto(args, i), s), RunPrefix(h, block, before.prefix, s))
    ensures var plan := before.(prefix := before.prefix + [Evaluate(args[i])]);
            PrefixOk(helper, block, plan, i + 1, EvalArgs(h, env, Upto(args, i + 1), s), RunPrefix(h, block, plan.prefix, s))
  {
    hide Used, Bound, ArgNames, SameReserved, RunPrefix, Temps;
    var (vals, t) := EvalArgs(h, env, Upto(args, i), s);
    var f := RunPrefix(h, block, before.prefix, s).0;
    ArgsMore(h, env, args, i, s);
    PrefixMore(h, block, before.prefix, Evaluate(args[i]), s);
    TempsMore(before.prefix, Evaluate(args[i]));
    if f.Some? {
      ArgReads(h, env, block, f.value, before.prefix, reserved, args, i, t);
      var v := EvalArg(h, env, args[i], t).0;
      if v.Some? {
        BoundKept(helper, f.value, before.sub, vals.value, i, v.value);
        BoundUnused(helper, f.value, before.sub, vals.value + [v.value], i);
      }
    }
  }

  /** An argument that is hoisted. */
  lemma {:induction false} HoistStep<S>(h: Host<S>, env: Frame, block: Frame, helper: Helper, args: seq<Arg>,
                                        reserved: set<string>, before: Plan, temp: string, i: nat, s: S)
    requires Distinct(helper.params) && i < |helper.params| && i < |args| && temp !in NewNames(before.sub)
    requires ArgNames(args) <= reserved && SameReserved(env, block, reserved) && SetOf(Temps(before.prefix)) !! reserved
    requires PrefixOk(helper, block, before, i, EvalArgs(h, env, Upto(args, i), s), RunPrefix(h, block, before.prefix, s))
    ensures var plan := Plan(before.prefix + [Declare(temp, args[i])], before.sub[helper.params[i] := Ref(temp)],
                             before.reserved + {temp});
            PrefixOk(helper, block, plan, i + 1, EvalArgs(h, env, Upto(args, i + 1), s), RunPrefix(h, block, plan.prefix, s))
  {
    hide Used, Bound, ArgNames, SameReserved, RunPrefix, Temps, NewNames;
    var (vals, t) := EvalArgs(h, env, Upto(args, i), s);
    var f := RunPrefix(h, block, before.prefix, s).0;
    ArgsMore(h, env, args, i, s);
    PrefixMore(h, block, before.prefix, Declare(temp, args[i]), s);
    TempsMore(before.prefix, Declare(temp, args[i]));
    if f.Some? {
      ArgReads(h, env, block, f.value, before.prefix, reserved, args, i, t);
      var v := EvalArg(h, env, args[i], t).0;
      if v.Some? {
        BoundKept(helper, f.value, before.sub, vals.value, i, v.value);
        BoundMore(helper, f.value, before.sub, vals.value + [v.value], i, Ref(temp), temp, v);
        TempsApart(Temps(before.prefix), temp, f.value, block, v, before.prefix, args[i]);
      }
    }
  }

  lemma {:induction false} TempsApart(temps: seq<string>, temp: string, frame: Frame, block: Frame, v: Option<Value>,
                                      prefix: seq<Prefix>, arg: Arg)
    requires OnlyTemps(frame, block, prefix) && temps == Temps(prefix)
    ensures OnlyTemps(frame[temp := v], block, prefix + [Declare(temp, arg)])
  {
    TempsMore(prefix, Declare(temp, arg));
    var all := temps + [temp];
    assert all[|temps|] == temp && forall i :: 0 <= i < |temps| ==> all[i] == temps[i];
  }

  /** The prefix evaluates the arguments as the call does, and leaves their values in what replaces the parameters. */
  lemma {:induction false} PrefixRuns<S>(h: Host<S>, env: Frame, block: Frame, helper: Helper, args: seq<Arg>,
                                         reserved: set<string>, s: S, n: nat)
    requires Distinct(helper.params) && n <= |helper.params|
    requires ArgNames(args) <= reserved && SameReserved(env, block, reserved)
    ensures var plan := PlanParams(helper, args, reserved, n);
            PrefixOk(helper, block, plan, n, EvalArgs(h, env, Upto(args, n), s), RunPrefix(h, block, plan.prefix, s))
  {
    hide *;
    if n == 0 {
      PrefixStarts(h, env, block, helper, args, reserved, s);
    } else {
      PrefixRuns(h, env, block, helper, args, reserved, s, n - 1);
      PlanParamsChoose(helper, args, reserved, n - 1);
      PlanParamsNext(helper, args, reserved, n);
      PrefixStep(h, env, block, helper, args, reserved, PlanParams(helper, args, reserved, n - 1), n - 1, s);
    }
  }

  lemma {:induction false} PrefixStarts<S>(h: Host<S>, env: Frame, block: Frame, helper: Helper, args: seq<Arg>,
                                           reserved: set<string>, s: S)
    ensures var plan := PlanParams(helper, args, reserved, 0);
            PrefixOk(helper, block, plan, 0, EvalArgs(h, env, Upto(args, 0), s), RunPrefix(h, block, plan.prefix, s))
  {
    assert Upto(args, 0) == [];
    assert EvalArgs(h, env, [], s) == (Some([]), s) && RunPrefix(h, block, [], s) == (Some(block), s);
  }

  lemma {:induction false} PlanParamsNext(helper: Helper, args: seq<Arg>, reserved: set<string>, n: nat)
    requires 0 < n <= |helper.params|
    ensures PlanParams(helper, args, reserved, n) == PlanParam(helper, args, n - 1, PlanParams(helper, args, reserved, n - 1))
  {
    hide PlanParam;
  }

  lemma {:induction false} PrefixStep<S>(h: Host<S>, env: Frame, block: Frame, helper: Helper, args: seq<Arg>,
                                         reserved: set<string>, before: Plan, i: nat, s: S)
    requires Distinct(helper.params) && i < |helper.params|
    requires ArgNames(args) <= reserved && SameReserved(env, block, reserved) && Chosen(before, reserved)
    requires PrefixOk(helper, block, before, i, EvalArgs(h, env, Upto(args, i), s), RunPrefix(h, block, before.prefix, s))
    ensures var plan := PlanParam(helper, args, i, before);
            PrefixOk(helper, block, plan, i + 1, EvalArgs(h, env, Upto(args, i + 1), s), RunPrefix(h, block, plan.prefix, s))
  {
    hide Used, PrefixOk, ArgNames, SameReserved, NewNames, Temps, EvalArgs, RunPrefix, Distinct, Upto, Injective;
    if i >= |args| || (args[i].Literal? && !Used(helper, helper.params[i])) {
      DroppedStep(h, env, block, helper, args, before, i, s);
    } else if !Used(helper, helper.params[i]) {
      EffectStep(h, env, block, helper, args, reserved, before, i, s);
    } else {
      HoistStep(h, env, block, helper, args, reserved, before, Fresh(TempBase(helper.params[i]), before.reserved), i, s);
    }
  }

  // ---------------------------------------------------------------- equivalence with the call

  /**
   No new name is one that the body takes from outside, and no scope in the body hides one: not the tail, when it becomes a
   block under the condition, none of its blocks, and none inside an operation. Guards move out of the scope of the tail's
   locals, so they must not mention them.
   */
  predicate NoCapture(helper: Helper, sub: Subst) {
    && ClearGuards(sub, helper.guards)
    && if helper.guards == [] then (Mentions(helper.tail) - sub.Keys) !! NewNames(sub) && Clear(sub, helper.tail)
       else
         && (TakenFromOutside(helper) - sub.Keys) !! NewNames(sub) && ClearBlock(sub, helper.tail)
         && NamesInAll(helper.guards) !! Declared(helper.tail)
  }

  /** What the body takes from the top level of the module means the same where the call stands. */
  ghost predicate SameOutside(helper: Helper, home: Frame, env: Frame) {
    forall x :: x in OutsideNames(helper) ==> Lookup(env, Ref(x)) == Lookup(home, Ref(x))
  }

  lemma {:induction false} BindLookup(params: seq<string>, vals: seq<Value>, x: string)
    ensures x in Bind(params, vals) <==> x in params
  {
    if params != [] {
      BindLookup(params[..|params| - 1], vals, x);
      assert params == params[..|params| - 1] + [params[|params| - 1]];
    }
  }

  lemma {:induction false} BindValue(params: seq<string>, vals: seq<Value>, i: nat)
    requires i < |params| && Distinct(params)
    ensures params[i] in Bind(params, vals) && Bind(params, vals)[params[i]] == Some(ValueAt(vals, i))
  {
    if i < |params| - 1 {
      BindValue(params[..|params| - 1], vals, i);
    }
  }

  /** `frame` is the scope after the prefix has run: the arguments have been evaluated to `vals`. */
  ghost predicate Entered(helper: Helper, args: seq<Arg>, reserved: set<string>, env: Frame, frame: Frame, vals: seq<Value>) {
    && Bound(helper, frame, PlanParams(helper, args, reserved, |helper.params|).sub, vals, |helper.params|)
    && OnlyTemps(frame, Enter(env, NewInBlock(Replaced(helper, args, reserved))), FullPlan(helper, args, reserved).prefix)
  }

  /** A name the body takes from outside, or a parameter: inside it reads what it read in the helper. */
  lemma {:induction false} OuterNameAgrees(helper: Helper, args: seq<Arg>, reserved: set<string>, home: Frame, env: Frame, frame: Frame,
                                           vals: seq<Value>, x: string)
    requires Proper(helper) && x in TakenFromOutside(helper) && x !in Declared(helper.tail)
    requires SameOutside(helper, home, env)
    requires Entered(helper, args, reserved, env, frame, vals)
    requires var plan := FullPlan(helper, args, reserved); x !in plan.sub ==> x !in NewNames(plan.sub)
    ensures Lookup(frame, SubstRef(FullPlan(helper, args, reserved).sub, Ref(x))) == Lookup(BodyFrame(home, helper, vals), Ref(x))
  {
    var plan, params := FullPlan(helper, args, reserved), PlanParams(helper, args, reserved, |helper.params|);
    PlanChooses(helper, args, reserved);
    if x in helper.params {
      hide Chosen, TakenFromOutside, OnlyTemps, Proper, NewInBlock, PlanParams, FullPlan;
      ParamRead(helper, frame, params.sub, vals, home, x);
    } else {
      hide Bound, TakenFromOutside, PlanParams, FullPlan, Declared;
      UsedParamsAre(helper, |helper.params|, x);
      NewInBlockChosen(helper, plan.prefix, plan.sub);
      OutsideRead(helper, vals, home, x);
    }
  }

  lemma {:induction false} ParamRead(helper: Helper, frame: Frame, sub: Subst, vals: seq<Value>, home: Frame, x: string)
    requires Distinct(helper.params) && x in helper.params && Used(helper, x) && x !in Declared(helper.tail)
    requires Bound(helper, frame, sub, vals, |helper.params|)
    ensures x in sub && Lookup(frame, sub[x]) == Lookup(BodyFrame(home, helper, vals), Ref(x))
  {
    var i :| 0 <= i < |helper.params| && helper.params[i] == x;
    BindValue(helper.params, vals, i);
    assert BoundParam(helper, frame, sub, helper.params[i], ValueAt(vals, i));
  }

  lemma {:induction false} OutsideRead(helper: Helper, vals: seq<Value>, home: Frame, x: string)
    requires x !in helper.params && x !in Declared(helper.tail)
    ensures Lookup(BodyFrame(home, helper, vals), Ref(x)) == Lookup(home, Ref(x))
  {
    BindLookup(helper.params, vals, x);
  }

  /** A local that lands in the block starts uninitialized, like the local of the helper. */
  lemma {:induction false} LocalAgreesInBlock(helper: Helper, args: seq<Arg>, reserved: set<string>, home: Frame, env: Frame, frame: Frame,
                                              vals: seq<Value>, x: string)
    requires Proper(helper) && helper.guards == [] && x in Declared(helper.tail)
    requires Entered(helper, args, reserved, env, frame, vals)
    ensures Lookup(frame, SubstRef(FullPlan(helper, args, reserved).sub, Ref(x))) == Lookup(BodyFrame(home, helper, vals), Ref(x))
  {
    var plan, params := FullPlan(helper, args, reserved), PlanParams(helper, args, reserved, |helper.params|);
    PlanChooses(helper, args, reserved);
    PlanParamsChoose(helper, args, reserved, |helper.params|);
    RenamedIsDeclared(plan.sub, helper.tail, x);
    UsedParamsAre(helper, |helper.params|, x);
    hide Used, Bound, Declared, Temps, PlanParams, FullPlan;
    var now := plan.sub[x].name;
    assert now in NewInBlock(Replaced(helper, args, reserved));
    forall y | y in params.sub && params.sub[y].Ref? ensures params.sub[y].name != now {
      assert plan.sub[y] == params.sub[y] && y != x;
    }
  }

  lemma {:induction false} NewNamesSeparate(sub: Subst, names: set<string>)
    requires Injective(sub) && (names - sub.Keys) !! NewNames(sub)
    ensures Separate(sub, names)
  {
    forall x, y | x in names && y in names && x != y && SubstRef(sub, Ref(x)).Ref?
      ensures SubstRef(sub, Ref(x)) != SubstRef(sub, Ref(y))
    {
      assert x in sub ==> sub[x].name in NewNames(sub);
      assert y in sub && sub[y].Ref? ==> sub[y].name in NewNames(sub);
    }
  }

  /** In the block: every name of the tail reads what it read in the helper. */
  lemma {:induction false} SplicedAgrees(helper: Helper, args: seq<Arg>, reserved: set<string>, home: Frame, env: Frame, frame: Frame,
                                         vals: seq<Value>)
    requires Proper(helper) && helper.guards == [] && NoCapture(helper, FullPlan(helper, args, reserved).sub)
    requires SameOutside(helper, home, env)
    requires Entered(helper, args, reserved, env, frame, vals)
    ensures var sub, names := FullPlan(helper, args, reserved).sub, Mentions(helper.tail) + Declared(helper.tail);
            Agree(sub, names, BodyFrame(home, helper, vals), frame) && Separate(sub, names)
  {
    var sub, names := FullPlan(helper, args, reserved).sub, Mentions(helper.tail) + Declared(helper.tail);
    PlanChooses(helper, args, reserved);
    NewNamesSeparate(sub, names);
    hide Entered, FullPlan, Mentions, Declared, BodyFrame, Proper;
    forall x | x in names ensures Lookup(frame, SubstRef(sub, Ref(x))) == Lookup(BodyFrame(home, helper, vals), Ref(x)) {
      if x in Declared(helper.tail) {
        LocalAgreesInBlock(helper, args, reserved, home, env, frame, vals, x);
      } else {
        OuterNameAgrees(helper, args, reserved, home, env, frame, vals, x);
      }
    }
  }

  /** Under the condition: so does every name that guards and tail take from outside. */
  lemma {:induction false} GuardedAgrees(helper: Helper, args: seq<Arg>, reserved: set<string>, home: Frame, env: Frame, frame: Frame,
                                         vals: seq<Value>)
    requires Proper(helper) && helper.guards != [] && NoCapture(helper, FullPlan(helper, args, reserved).sub)
    requires SameOutside(helper, home, env)
    requires Entered(helper, args, reserved, env, frame, vals)
    ensures var sub, names := FullPlan(helper, args, reserved).sub, TakenFromOutside(helper);
            Agree(sub, names, BodyFrame(home, helper, vals), frame) && Separate(sub, names)
  {
    var sub, names := FullPlan(helper, args, reserved).sub, TakenFromOutside(helper);
    PlanChooses(helper, args, reserved);
    NewNamesSeparate(sub, names);
    hide Entered, FullPlan, Declared, BodyFrame, Proper, NamesInAll, Mentions;
    forall x | x in names ensures Lookup(frame, SubstRef(sub, Ref(x))) == Lookup(BodyFrame(home, helper, vals), Ref(x)) {
      OuterNameAgrees(helper, args, reserved, home, env, frame, vals, x);
    }
  }

  /** With the arguments in place, the replacement goes on as the body does. */
  lemma {:induction false} BodyRuns<S>(h: Host<S>, helper: Helper, args: seq<Arg>, reserved: set<string>, home: Frame, env: Frame,
                                       frame: Frame, vals: seq<Value>, fuel: nat, t: S)
    requires Proper(helper) && NoCapture(helper, FullPlan(helper, args, reserved).sub)
    requires SameOutside(helper, home, env)
    requires Entered(helper, args, reserved, env, frame, vals)
    requires AllFlipsOrdered(h, BodyFrame(home, helper, vals), helper.guards, t)
    ensures GoesOn(h, frame, Replaced(helper, args, reserved), fuel, t) ==
            RunBody(h, BodyFrame(home, helper, vals), helper, fuel, t)
  {
    hide Entered, FullPlan, Proper, NoCapture, BodyFrame, GoesOn, RunBody;
    if helper.guards == [] {
      SplicedRuns(h, helper, args, reserved, home, env, frame, vals, fuel, t);
    } else {
      GuardedRuns(h, helper, args, reserved, home, env, frame, vals, fuel, t);
    }
  }

  lemma {:induction false} SplicedRuns<S>(h: Host<S>, helper: Helper, args: seq<Arg>, reserved: set<string>, home: Frame, env: Frame,
                                          frame: Frame, vals: seq<Value>, fuel: nat, t: S)
    requires Proper(helper) && helper.guards == [] && NoCapture(helper, FullPlan(helper, args, reserved).sub)
    requires SameOutside(helper, home, env)
    requires Entered(helper, args, reserved, env, frame, vals)
    ensures GoesOn(h, frame, Replaced(helper, args, reserved), fuel, t) ==
            RunBody(h, BodyFrame(home, helper, vals), helper, fuel, t)
  {
    var sub, outer := FullPlan(helper, args, reserved).sub, BodyFrame(home, helper, vals);
    PlanChooses(helper, args, reserved);
    hide Entered, FullPlan, Proper, Chosen;
    SplicedAgrees(helper, args, reserved, home, env, frame, vals);
    StmtsAgree(h, sub, Mentions(helper.tail) + Declared(helper.tail), outer, frame, helper.tail, fuel, t);
  }

  lemma {:induction false} GuardedRuns<S>(h: Host<S>, helper: Helper, args: seq<Arg>, reserved: set<string>, home: Frame, env: Frame,
                                          frame: Frame, vals: seq<Value>, fuel: nat, t: S)
    requires Proper(helper) && helper.guards != [] && NoCapture(helper, FullPlan(helper, args, reserved).sub)
    requires SameOutside(helper, home, env)
    requires Entered(helper, args, reserved, env, frame, vals)
    requires AllFlipsOrdered(h, BodyFrame(home, helper, vals), helper.guards, t)
    ensures GoesOn(h, frame, Replaced(helper, args, reserved), fuel, t) ==
            RunBody(h, BodyFrame(home, helper, vals), helper, fuel, t)
  {
    var sub, outer := FullPlan(helper, args, reserved).sub, BodyFrame(home, helper, vals);
    hide Entered, FullPlan, Proper;
    assert Enter(outer, Declared(helper.tail)) == outer;
    assert ClearGuards(sub, helper.guards) && ClearBlock(sub, helper.tail);
    hide BodyFrame, Agree, Separate, ClearBlock, ClearGuards, NoCapture, SubstBlock, SubstGuards, RunStmts, RunGuards, AllFlipsOrdered,
         Declared, FreeNames, SameOutside, Enter, Combined, Eval;
    GuardedAgrees(helper, args, reserved, home, env, frame, vals);
    ConditionDecides(h, sub, TakenFromOutside(helper), outer, frame, helper.guards, t);
    BlockAgrees(h, sub, TakenFromOutside(helper), outer, frame, helper.tail, fuel, RunGuards(h, outer, helper.guards, t).1);
  }

  lemma {:induction false} ConditionDecides<S>(h: Host<S>, sub: Subst, names: set<string>, outer: Frame, frame: Frame,
                                               guards: seq<Expr>, t: S)
    requires Agree(sub, names, outer, frame) && NamesInAll(guards) <= names && guards != [] && ClearGuards(sub, guards)
    requires AllFlipsOrdered(h, outer, guards, t)
    ensures Decide(Eval(h, frame, Combined(SubstGuards(sub, guards)), t)) == RunGuards(h, outer, guards, t)
  {
    GuardsAgree(h, sub, names, outer, frame, guards, t);
    GuardInversionSound(h, frame, SubstGuards(sub, guards), t);
  }

  /**
   Strict-mode inlining equals the call: arguments are evaluated once, left to right, before the body, dropping only
   unused literals; the replacement completes or throws as the call does, in the same state, after any number of loop
   iterations. Guards are as in GuardInversionSound.
   */
  lemma {:induction false} StrictInlineSound<S>(h: Host<S>, home: Frame, env: Frame, helper: Helper, args: seq<Arg>, reserved: set<string>,
                                                fuel: nat, s: S)
    requires Proper(helper) && |args| <= |helper.params| && ArgNames(args) <= reserved
    requires NoCapture(helper, FullPlan(helper, args, reserved).sub) && SameOutside(helper, home, env)
    requires var (vals, t) := EvalArgs(h, env, args, s);
             vals.Some? ==> AllFlipsOrdered(h, BodyFrame(home, helper, vals.value), helper.guards, t)
    ensures RunReplacement(h, env, Replaced(helper, args, reserved), fuel, s) == RunCall(h, home, env, helper, args, fuel, s)
  {
    PrefixMeans(h, env, helper, args, reserved, s);
    var (vals, t) := EvalArgs(h, env, args, s);
    if vals.Some? {
      var r := Replaced(helper, args, reserved);
      BodyRuns(h, helper, args, reserved, home, env, RunPrefix(h, Enter(env, NewInBlock(r)), r.prefix, s).0.value, vals.value, fuel, t);
    }
  }

  /** The whole prefix, in the block: the arguments evaluated as for the call. */
  lemma {:induction false} PrefixMeans<S>(h: Host<S>, env: Frame, helper: Helper, args: seq<Arg>, reserved: set<string>, s: S)
    requires Proper(helper) && |args| <= |helper.params| && ArgNames(args) <= reserved
    ensures var r := Replaced(helper, args, reserved);
            var (f, t), (vals, u) := RunPrefix(h, Enter(env, NewInBlock(r)), r.prefix, s), EvalArgs(h, env, args, s);
            && t == u && (f.None? <==> vals.None?)
            && (f.Some? && vals.Some? ==> Entered(helper, args, reserved, env, f.value, vals.value))
  {
    var r := Replaced(helper, args, reserved);
    var block := Enter(env, NewInBlock(r));
    forall x | x in reserved ensures Lookup(block, Ref(x)) == Lookup(env, Ref(x)) {
      BlockUndisturbed(helper, args, reserved, env, x);
    }
    PrefixRuns(h, env, block, helper, args, reserved, s, |helper.params|);
    PlanChooses(helper, args, reserved);
    assert args[..|args|] == args && Upto(args, |helper.params|) == args;
  }
}
