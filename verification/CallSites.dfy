/** All call sites of a helper in one block, inlined together (scripts/inline-functions.ts). */
module CallSites {
  import opened Prelude
  import opened InlineExpr
  import opened GuardInversion
  import opened BodyScope
  import opened StrictInline
  import opened StrictMeaning

  /** A statement of the block: one that stays, or a call that is replaced. */
  datatype Item = Stays(stmt: Stmt) | Call(args: seq<Arg>)

  function CallsIn(items: seq<Item>): seq<seq<Arg>> {
    if items == [] then [] else (if items[0].Call? then [items[0].args] else []) + CallsIn(items[1..])
  }

  function DeclaredBy(item: Item): set<string> {
    if item.Stays? then Declared([item.stmt]) else {}
  }

  function NamesOfItem(item: Item): set<string> {
    if item.Call? then ArgNames(item.args) else MentionsOf(item.stmt) + DeclaredBy(item)
  }

  /** The names in the block, apart from the helper's. */
  function NamesOfItems(items: seq<Item>): set<string> {
    if items == [] then {} else NamesOfItem(items[0]) + NamesOfItems(items[1..])
  }

  function DeclaredByItems(items: seq<Item>): set<string> {
    if items == [] then {} else DeclaredBy(items[0]) + DeclaredByItems(items[1..])
  }

  predicate ArgsFit(helper: Helper, items: seq<Item>) {
    forall i :: 0 <= i < |items| && items[i].Call? ==> |items[i].args| <= |helper.params|
  }

  // ---------------------------------------------------------------- running the block

  /** The block as it was, in the scope inside it. */
  function RunCalls<S>(h: Host<S>, home: Frame, frame: Frame, helper: Helper, items: seq<Item>, fuel: nat, s: S): (Outcome, S)
    decreases items
  {
    if items == [] then (Completed, s)
    else
      match items[0]
      case Call(args) =>
        var (o, t) := RunCall(h, home, frame, helper, args, fuel, s);
        if o.Completed? then RunCalls(h, home, frame, helper, items[1..], fuel, t) else (o, t)
      case Stays(stmt) =>
        var (o, f, t) := RunStmt(h, frame, stmt, fuel, s);
        if o.Completed? then RunCalls(h, home, f, helper, items[1..], fuel, t) else (o, t)
  }

  function ScopeOf<S>(h: Host<S>, frame: Frame, stmts: seq<Stmt>, fuel: nat, s: S): Frame
    decreases stmts
  {
    if stmts == [] then frame
    else
      var (o, f, t) := RunStmt(h, frame, stmts[0], fuel, s);
      if o.Completed? then ScopeOf(h, f, stmts[1..], fuel, t) else f
  }

  /** The scope in the block after a replacement. */
  function ScopeAfter<S>(h: Host<S>, frame: Frame, r: Replacement, fuel: nat, s: S): Frame {
    var (f, t) := RunPrefix(h, Enter(frame, NewInBlock(r)), r.prefix, s);
    if f.None? then frame else if r.condition.Some? then f.value else ScopeOf(h, f.value, r.tail, fuel, t)
  }

  /** The block with every call replaced. */
  function RunReplaced<S>(h: Host<S>, frame: Frame, items: seq<Item>, plans: seq<Replacement>, fuel: nat, s: S): (Outcome, S)
    requires |plans| == |CallsIn(items)|
    decreases items
  {
    if items == [] then (Completed, s)
    else
      match items[0]
      case Call(args) =>
        var (o, t) := RunReplacement(h, frame, plans[0], fuel, s);
        if o.Completed? then RunReplaced(h, ScopeAfter(h, frame, plans[0], fuel, s), items[1..], plans[1..], fuel, t) else (o, t)
      case Stays(stmt) =>
        var (o, f, t) := RunStmt(h, frame, stmt, fuel, s);
        if o.Completed? then RunReplaced(h, f, items[1..], plans, fuel, t) else (o, t)
  }

  // ---------------------------------------------------------------- what a replacement leaves behind

  lemma {:induction false} ScopeOfOnly<S>(h: Host<S>, frame: Frame, stmts: seq<Stmt>, fuel: nat, s: S, x: string)
    requires x !in Declared(stmts)
    ensures Lookup(ScopeOf(h, frame, stmts, fuel, s), Ref(x)) == Lookup(frame, Ref(x))
    decreases stmts
  {
    if stmts != [] {
      var (o, f, t) := RunStmt(h, frame, stmts[0], fuel, s);
      assert Lookup(f, Ref(x)) == Lookup(frame, Ref(x));
      if o.Completed? {
        ScopeOfOnly(h, f, stmts[1..], fuel, t, x);
      }
    }
  }

  lemma {:induction false} PrefixOnly<S>(h: Host<S>, frame: Frame, prefix: seq<Prefix>, s: S, x: string)
    requires x !in SetOf(Temps(prefix))
    ensures var f := RunPrefix(h, frame, prefix, s).0; f.Some? ==> Lookup(f.value, Ref(x)) == Lookup(frame, Ref(x))
  {
    if prefix != [] {
      var init, last := prefix[..|prefix| - 1], prefix[|prefix| - 1];
      assert prefix == init + [last];
      TempsMore(init, last);
      TempsSplit(Temps(init), if last.Declare? then [last.temp] else [], x);
      PrefixOnly(h, frame, init, s, x);
    }
  }

  lemma {:induction false} TempsSplit(a: seq<string>, b: seq<string>, x: string)
    requires x !in SetOf(a + b)
    ensures x !in SetOf(a) && x !in SetOf(b)
  {
    var all := a + b;
    forall i | 0 <= i < |a| ensures a[i] != x {
      assert all[i] == a[i];
    }
    forall i | 0 <= i < |b| ensures b[i] != x {
      assert all[|a| + i] == b[i];
    }
  }

  /** A replacement touches nothing in the scope but its own names. */
  lemma {:induction false} OnlyNewNames<S>(h: Host<S>, frame: Frame, r: Replacement, fuel: nat, s: S, x: string)
    requires x !in NewInBlock(r)
    ensures Lookup(ScopeAfter(h, frame, r, fuel, s), Ref(x)) == Lookup(frame, Ref(x))
  {
    var block := Enter(frame, NewInBlock(r));
    var (f, t) := RunPrefix(h, block, r.prefix, s);
    PrefixOnly(h, block, r.prefix, s, x);
    if f.Some? && r.condition.None? {
      ScopeOfOnly(h, f.value, r.tail, fuel, t, x);
    }
  }

  /** No new name is one that the body takes from outside. */
  lemma {:induction false} NewAvoidOutside(helper: Helper, args: seq<Arg>, reserved: set<string>)
    requires Proper(helper) && NoCapture(helper, FullPlan(helper, args, reserved).sub)
    ensures NewInBlock(Replaced(helper, args, reserved)) !! OutsideNames(helper)
  {
    var plan := FullPlan(helper, args, reserved);
    PlanChooses(helper, args, reserved);
    NewInBlockChosen(helper, plan.prefix, plan.sub);
    forall x | x in OutsideNames(helper) ensures x !in plan.sub {
      UsedParamsAre(helper, |helper.params|, x);
    }
  }

  // ---------------------------------------------------------------- running alike

  /** The scopes agree on the names. */
  ghost predicate AgreeOn(names: set<string>, f: Frame, g: Frame) {
    forall x :: x in names ==> Lookup(f, Ref(x)) == Lookup(g, Ref(x))
  }

  lemma {:induction false} NothingReplaced(stmt: Stmt)
    ensures SubstStmt(map[], stmt) == stmt && ClearStmt(map[], stmt)
    decreases stmt, 0
  {
    NoRefsReplaced(stmt.refs);
    if stmt.Nested? {
      var none: Subst := map[];
      assert none - Declared(stmt.body) == none;
      NoneReplaced(stmt.body);
    }
  }

  lemma {:induction false} NoneReplaced(stmts: seq<Stmt>)
    ensures SubstStmts(map[], stmts) == stmts && Clear(map[], stmts)
    decreases stmts, 1
  {
    if stmts != [] {
      NothingReplaced(stmts[0]);
      NoneReplaced(stmts[1..]);
    }
  }

  lemma {:induction false} NoRefsReplaced(refs: seq<Mention>)
    ensures SubstRefs(map[], refs) == refs && ClearRefs(map[], refs)
  {
    forall i | 0 <= i < |refs| ensures SubstMention(map[], refs[i]) == refs[i] {
    }
  }

  /** A statement runs alike where its names read the same. */
  lemma {:induction false} StaysAlike<S>(h: Host<S>, names: set<string>, f: Frame, g: Frame, stmt: Stmt, fuel: nat, s: S)
    requires AgreeOn(names, f, g) && MentionsOf(stmt) + Declared([stmt]) <= names
    ensures var (o, a, t), (p, b, u) := RunStmt(h, f, stmt, fuel, s), RunStmt(h, g, stmt, fuel, s);
            o == p && t == u && AgreeOn(names, a, b)
  {
    NothingReplaced(stmt);
    assert Agree(map[], names, f, g) && Separate(map[], names) && NamesLocals(map[], Declared([stmt]));
    StmtAgrees(h, map[], names, f, g, stmt, fuel, s);
    var a, b := RunStmt(h, f, stmt, fuel, s).1, RunStmt(h, g, stmt, fuel, s).1;
    forall x | x in names ensures Lookup(a, Ref(x)) == Lookup(b, Ref(x)) {
      assert SubstRef(map[], Ref(x)) == Ref(x);
    }
  }

  lemma {:induction false} ArgsAlike<S>(h: Host<S>, f: Frame, g: Frame, args: seq<Arg>, s: S)
    requires AgreeOn(ArgNames(args), f, g)
    ensures EvalArgs(h, f, args, s) == EvalArgs(h, g, args, s)
  {
    if args != [] {
      var init, last := args[..|args| - 1], args[|args| - 1];
      assert forall i :: 0 <= i < |init| ==> init[i] == args[i];
      ArgsAlike(h, f, g, init, s);
      if last.Computed? {
        forall k | 0 <= k < |last.refs| ensures See(f, last.refs[k]) == See(g, last.refs[k]) {
          var o := last.refs[k].o;
          if o.Ref? && last.refs[k].Free() {
            assert o.name in NamesOf(last.refs) && o.name in ArgNames(args) && o == Ref(o.name);
          }
        }
        assert SeeAll(f, last.refs) == SeeAll(g, last.refs);
      }
    }
  }

  // ---------------------------------------------------------------- the whole block

  /** At every call site nothing is captured. */
  ghost predicate SitesKeep(helper: Helper, calls: seq<seq<Arg>>, reserved: set<string>) {
    calls == [] ||
    var plan := FullPlan(helper, calls[0], reserved);
    NoCapture(helper, plan.sub) && SitesKeep(helper, calls[1..], plan.reserved)
  }

  /** The guards' flips always find an order. */
  ghost predicate FlipsFindOrder<S(!new)>(h: Host<S>, home: Frame, helper: Helper) {
    forall vals, t: S :: AllFlipsOrdered(h, BodyFrame(home, helper, vals), helper.guards, t)
  }

  /** The scope `g` of the block with replacements shows what `f` shows, except for new names. */
  ghost predicate Shows(helper: Helper, home: Frame, names: set<string>, f: Frame, g: Frame) {
    AgreeOn(names, f, g) && SameOutside(helper, home, f) && SameOutside(helper, home, g)
  }

  /** One call: the replacement does what it does, and leaves a scope that still shows the same. */
  lemma {:induction false} CallStep<S(!new)>(h: Host<S>, home: Frame, f: Frame, g: Frame, helper: Helper, args: seq<Arg>,
                                             names: set<string>, reserved: set<string>, fuel: nat, s: S)
    requires Proper(helper) && |args| <= |helper.params| && ArgNames(args) <= names <= reserved
    requires NoCapture(helper, FullPlan(helper, args, reserved).sub) && Shows(helper, home, names, f, g)
    requires FlipsFindOrder(h, home, helper)
    ensures var r := Replaced(helper, args, reserved);
            && RunReplacement(h, g, r, fuel, s) == RunCall(h, home, f, helper, args, fuel, s)
            && Shows(helper, home, names, f, ScopeAfter(h, g, r, fuel, s))
  {
    var r := Replaced(helper, args, reserved);
    ArgsAlike(h, f, g, args, s);
    StrictInlineSound(h, home, g, helper, args, reserved, fuel, s);
    NewAvoidOutside(helper, args, reserved);
    PlanIsNew(helper, args, reserved);
    hide Proper, NoCapture, FullPlan, Replaced, NewInBlock, ScopeAfter, RunReplacement, OutsideNames, ArgNames;
    forall x | x in names || x in OutsideNames(helper)
      ensures Lookup(ScopeAfter(h, g, r, fuel, s), Ref(x)) == Lookup(g, Ref(x))
    {
      OnlyNewNames(h, g, r, fuel, s, x);
    }
  }

  /** A statement that stays declares no name that the helper takes from outside. */
  lemma {:induction false} StayStep<S>(h: Host<S>, home: Frame, f: Frame, g: Frame, helper: Helper, stmt: Stmt,
                                       names: set<string>, fuel: nat, s: S)
    requires MentionsOf(stmt) + Declared([stmt]) <= names && Shows(helper, home, names, f, g)
    requires Declared([stmt]) !! OutsideNames(helper)
    ensures var (o, a, t), (p, b, u) := RunStmt(h, f, stmt, fuel, s), RunStmt(h, g, stmt, fuel, s);
            o == p && t == u && Shows(helper, home, names, a, b)
  {
    StaysAlike(h, names, f, g, stmt, fuel, s);
    assert stmt.Local? ==> stmt.name in Declared([stmt]);
    hide OutsideNames, MentionsOf, Declared, RunNested;
  }

  lemma {:induction false} SitesSound<S(!new)>(h: Host<S>, home: Frame, f: Frame, g: Frame, helper: Helper, items: seq<Item>,
                                               names: set<string>, reserved: set<string>, fuel: nat, s: S)
    requires Proper(helper) && ArgsFit(helper, items) && NamesOfItems(items) <= names <= reserved
    requires SitesKeep(helper, CallsIn(items), reserved) && DeclaredByItems(items) !! OutsideNames(helper)
    requires Shows(helper, home, names, f, g) && FlipsFindOrder(h, home, helper)
    ensures RunReplaced(h, g, items, PlansOf(helper, CallsIn(items), reserved), fuel, s) ==
            RunCalls(h, home, f, helper, items, fuel, s)
    decreases items
  {
    if items != [] {
      ItemsSplit(helper, items);
      hide Proper, Shows, FlipsFindOrder, NoCapture, FullPlan, Replaced, OutsideNames, RunCall, RunReplacement, ScopeAfter, RunStmt, ArgNames,
           MentionsOf, Declared, ArgsFit, NamesOfItems, DeclaredByItems, RunCalls, RunReplaced;
      var rest, plans := items[1..], PlansOf(helper, CallsIn(items), reserved);
      match items[0]
      case Call(args) =>
        CallFirst(helper, items, reserved);
        CallGoesOn(h, home, f, g, helper, items, plans, fuel, s);
        var r, plan := Replaced(helper, args, reserved), FullPlan(helper, args, reserved);
        CallStep(h, home, f, g, helper, args, names, reserved, fuel, s);
        PlanIsNew(helper, args, reserved);
        hide SitesKeep, CallsIn, PlansOf;
        SitesSound(h, home, f, ScopeAfter(h, g, r, fuel, s), helper, rest, names, plan.reserved, fuel,
                   RunReplacement(h, g, r, fuel, s).1);
      case Stays(stmt) =>
        assert CallsIn(items) == CallsIn(rest);
        StayGoesOn(h, home, f, g, helper, items, plans, fuel, s);
        hide SitesKeep, CallsIn, PlansOf;
        StayStep(h, home, f, g, helper, stmt, names, fuel, s);
        var (_, a, t) := RunStmt(h, f, stmt, fuel, s);
        SitesSound(h, home, a, RunStmt(h, g, stmt, fuel, s).1, helper, rest, names, reserved, fuel, t);
    }
  }

  lemma {:induction false} CallGoesOn<S>(h: Host<S>, home: Frame, f: Frame, g: Frame, helper: Helper, items: seq<Item>,
                                         plans: seq<Replacement>, fuel: nat, s: S)
    requires items != [] && items[0].Call? && |plans| == |CallsIn(items)|
    ensures var (o, t) := RunCall(h, home, f, helper, items[0].args, fuel, s);
            RunCalls(h, home, f, helper, items, fuel, s) ==
            if o.Completed? then RunCalls(h, home, f, helper, items[1..], fuel, t) else (o, t)
    ensures var (o, t) := RunReplacement(h, g, plans[0], fuel, s);
            RunReplaced(h, g, items, plans, fuel, s) ==
            if o.Completed? then RunReplaced(h, ScopeAfter(h, g, plans[0], fuel, s), items[1..], plans[1..], fuel, t) else (o, t)
  {
    hide RunCall, RunReplacement, ScopeAfter;
  }

  lemma {:induction false} StayGoesOn<S>(h: Host<S>, home: Frame, f: Frame, g: Frame, helper: Helper, items: seq<Item>,
                                         plans: seq<Replacement>, fuel: nat, s: S)
    requires items != [] && items[0].Stays? && |plans| == |CallsIn(items)|
    ensures var (o, a, t) := RunStmt(h, f, items[0].stmt, fuel, s);
            RunCalls(h, home, f, helper, items, fuel, s) ==
            if o.Completed? then RunCalls(h, home, a, helper, items[1..], fuel, t) else (o, t)
    ensures var (o, a, t) := RunStmt(h, g, items[0].stmt, fuel, s);
            RunReplaced(h, g, items, plans, fuel, s) ==
            if o.Completed? then RunReplaced(h, a, items[1..], plans, fuel, t) else (o, t)
  {
    hide RunStmt;
  }

  lemma {:induction false} ItemsSplit(helper: Helper, items: seq<Item>)
    requires items != [] && ArgsFit(helper, items)
    ensures ArgsFit(helper, items[1..]) && (items[0].Call? ==> |items[0].args| <= |helper.params|)
    ensures NamesOfItems(items) == NamesOfItem(items[0]) + NamesOfItems(items[1..])
    ensures DeclaredByItems(items) == DeclaredBy(items[0]) + DeclaredByItems(items[1..])
  {
    var rest := items[1..];
    assert forall i :: 0 <= i < |rest| ==> rest[i] == items[i + 1];
  }

  lemma {:induction false} CallFirst(helper: Helper, items: seq<Item>, reserved: set<string>)
    requires items != [] && items[0].Call?
    ensures var calls, plans := CallsIn(items), PlansOf(helper, CallsIn(items), reserved);
            var plan := FullPlan(helper, items[0].args, reserved);
            && plans[0] == Replaced(helper, items[0].args, reserved)
            && plans[1..] == PlansOf(helper, CallsIn(items[1..]), plan.reserved)
            && (SitesKeep(helper, calls, reserved) ==>
                  NoCapture(helper, plan.sub) && SitesKeep(helper, CallsIn(items[1..]), plan.reserved))
  {
    hide Replaced, FullPlan, NoCapture;
    assert CallsIn(items)[0] == items[0].args && CallsIn(items)[1..] == CallsIn(items[1..]);
  }

  /** All names that the replacements declare in the block. */
  function AllNew(plans: seq<Replacement>): set<string> {
    if plans == [] then {} else NewInBlock(plans[0]) + AllNew(plans[1..])
  }

  lemma {:induction false} AllNewAreNew(helper: Helper, calls: seq<seq<Arg>>, reserved: set<string>)
    requires Proper(helper) && SitesKeep(helper, calls, reserved)
    ensures var all := AllNew(PlansOf(helper, calls, reserved)); all !! reserved && all !! OutsideNames(helper)
  {
    if calls != [] {
      var plan := FullPlan(helper, calls[0], reserved);
      PlanIsNew(helper, calls[0], reserved);
      NewAvoidOutside(helper, calls[0], reserved);
      AllNewAreNew(helper, calls[1..], plan.reserved);
      hide Proper, NoCapture, FullPlan, Replaced, OutsideNames, NewInBlock;
    }
  }

  /**
   The block with every call site replaced runs as the block with the calls, on every host whose comparisons find an order,
   although the new names of all sites are in scope from the start of the block: they are new to everything in the block,
   and to everything that the helper takes from outside.
   */
  lemma {:induction false} CallSitesSound<S(!new)>(h: Host<S>, home: Frame, frame: Frame, helper: Helper, items: seq<Item>,
                                                   reserved: set<string>, fuel: nat, s: S)
    requires Proper(helper) && ArgsFit(helper, items) && NamesOfItems(items) <= reserved
    requires SitesKeep(helper, CallsIn(items), reserved) && DeclaredByItems(items) !! OutsideNames(helper)
    requires SameOutside(helper, home, frame) && FlipsFindOrder(h, home, helper)
    ensures var plans := PlansOf(helper, CallsIn(items), reserved);
            RunReplaced(h, Enter(frame, AllNew(plans)), items, plans, fuel, s) == RunCalls(h, home, frame, helper, items, fuel, s)
  {
    var plans := PlansOf(helper, CallsIn(items), reserved);
    AllNewAreNew(helper, CallsIn(items), reserved);
    NewShow(helper, home, frame, AllNew(plans), NamesOfItems(items));
    hide *;
    SitesSound(h, home, frame, Enter(frame, AllNew(plans)), helper, items, NamesOfItems(items), reserved, fuel, s);
  }

  lemma {:induction false} NewShow(helper: Helper, home: Frame, frame: Frame, all: set<string>, names: set<string>)
    requires SameOutside(helper, home, frame) && all !! names && all !! OutsideNames(helper)
    ensures Shows(helper, home, names, frame, Enter(frame, all))
  {
    hide OutsideNames;
  }
}
