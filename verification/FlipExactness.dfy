/**
 Exactly which guards can be inverted.

 Flipping `<` to `>=` complements it only on ordered operands, and the inliner flips without looking at them. A
 static condition on the guards decides the matter: no flipped relational comparison has an operand that can be
 anything but a boolean. Where it holds the inversion is sound on every host that orders booleans; where it does not,
 there is a run on which the guards and the inverted condition part.
 */
module FlipExactness {
  import opened Prelude
  import opened InlineExpr
  import opened GuardInversion

  /** `e` may evaluate to something other than a boolean, with truthiness `t`. */
  predicate MayBeOther(e: Expr, t: bool) {
    match e
    case Atom(_, _) | Loose(_, _) => true
    case Paren(inner) => MayBeOther(inner, t)
    case Not(_) | Cmp(_, _, _) => false
    case And(l, r) => MayBeOther(r, t) || (!t && MayBeOther(l, false))
    case Or(l, r) => MayBeOther(r, t) || (t && MayBeOther(l, true))
  }

  predicate AlwaysBool(e: Expr) {
    !MayBeOther(e, true) && !MayBeOther(e, false)
  }

  /** No relational comparison that gets flipped has an operand that may be unordered. */
  predicate SafeFlips(e: Expr) {
    match e
    case Paren(inner) => SafeFlips(inner)
    case And(l, r) => SafeFlips(l) && SafeFlips(r)
    case Or(l, r) => SafeFlips(l) && SafeFlips(r)
    case Cmp(op, l, r) => Relational(op) ==> AlwaysBool(l) && AlwaysBool(r)
    case _ => true
  }

  predicate AllSafe(guards: seq<Expr>) {
    forall i :: 0 <= i < |guards| ==> SafeFlips(guards[i])
  }

  ghost predicate OrdersBooleans<S(!new)>(h: Host<S>) {
    forall a, b, first, s :: h.less(Bool(a), Bool(b), first, s).0 != Unordered
  }

  // ---------------------------------------------------------------- the condition suffices

  lemma {:induction false} OtherValues<S>(h: Host<S>, frame: Frame, e: Expr, s: S)
    ensures var v := Eval(h, frame, e, s).0;
            v.Some? && !v.value.Bool? ==> MayBeOther(e, Truthy(v.value))
  {
    match e
    case Paren(inner) => OtherValues(h, frame, inner, s);
    case And(l, r) =>
      OtherValues(h, frame, l, s);
      OtherValues(h, frame, r, Eval(h, frame, l, s).1);
    case Or(l, r) =>
      OtherValues(h, frame, l, s);
      OtherValues(h, frame, r, Eval(h, frame, l, s).1);
    case _ =>
  }

  lemma {:induction false} SafeIsOrdered<S(!new)>(h: Host<S>, frame: Frame, e: Expr, s: S)
    requires SafeFlips(e) && OrdersBooleans(h)
    ensures FlipsOrdered(h, frame, e, s)
  {
    match e
    case Paren(inner) => SafeIsOrdered(h, frame, inner, s);
    case And(l, r) =>
      SafeIsOrdered(h, frame, l, s);
      SafeIsOrdered(h, frame, r, Eval(h, frame, l, s).1);
    case Or(l, r) =>
      SafeIsOrdered(h, frame, l, s);
      SafeIsOrdered(h, frame, r, Eval(h, frame, l, s).1);
    case Cmp(op, l, r) =>
      OtherValues(h, frame, l, s);
      OtherValues(h, frame, r, Eval(h, frame, l, s).1);
    case _ =>
  }

  lemma {:induction false} AllSafeIsOrdered<S(!new)>(h: Host<S>, frame: Frame, guards: seq<Expr>, s: S)
    requires AllSafe(guards) && OrdersBooleans(h)
    ensures AllFlipsOrdered(h, frame, guards, s)
  {
    if guards != [] {
      SafeIsOrdered(h, frame, guards[0], s);
      AllSafeIsOrdered(h, frame, guards[1..], Decide(Eval(h, frame, guards[0], s)).1);
    }
  }

  ghost predicate TotallyOrders<S(!new)>(h: Host<S>) {
    forall a, b, first, s :: h.less(a, b, first, s).0 != Unordered
  }

  /** On a host whose comparisons are always ordered, every guard list can be inverted. */
  lemma {:induction false} TotalOrderSuffices<S(!new)>(h: Host<S>, frame: Frame, guards: seq<Expr>, s: S)
    requires guards != [] && TotallyOrders(h)
    ensures Decide(Eval(h, frame, Combined(guards), s)) == RunGuards(h, frame, guards, s)
  {
    TotalIsOrdered(h, frame, guards, s);
    GuardInversionSound(h, frame, guards, s);
  }

  lemma {:induction false} TotalIsOrdered<S(!new)>(h: Host<S>, frame: Frame, guards: seq<Expr>, s: S)
    requires TotallyOrders(h)
    ensures AllFlipsOrdered(h, frame, guards, s)
  {
    if guards != [] {
      TotalIsOrderedOne(h, frame, guards[0], s);
      TotalIsOrdered(h, frame, guards[1..], Decide(Eval(h, frame, guards[0], s)).1);
    }
  }

  lemma {:induction false} TotalIsOrderedOne<S(!new)>(h: Host<S>, frame: Frame, e: Expr, s: S)
    requires TotallyOrders(h)
    ensures FlipsOrdered(h, frame, e, s)
  {
    match e
    case Paren(inner) => TotalIsOrderedOne(h, frame, inner, s);
    case And(l, r) =>
      TotalIsOrderedOne(h, frame, l, s);
      TotalIsOrderedOne(h, frame, r, Eval(h, frame, l, s).1);
    case Or(l, r) =>
      TotalIsOrderedOne(h, frame, l, s);
      TotalIsOrderedOne(h, frame, r, Eval(h, frame, l, s).1);
    case Cmp(op, l, r) =>
      var (a, t) := Eval(h, frame, l, s);
      if a.Some? {
        var (b, u) := Eval(h, frame, r, t);
        assert b.Some? ==> OrderedAt(h, op, a.value, b.value, u);
      }
    case _ =>
  }

  // ---------------------------------------------------------------- the condition is necessary

  /** A host whose operations return the values of a script, one after the other, then `false`. */
  datatype Script = Script(vals: seq<Value>, used: nat)

  function Next(s: Script): (Option<Value>, Script) {
    if s.vals == [] then (Some(Bool(false)), Script([], s.used + 1))
    else (Some(s.vals[0]), Script(s.vals[1..], s.used + 1))
  }

  function LessScripted(a: Value, b: Value): Ordering {
    if a.Bool? && b.Bool? then (if !a.b && b.b then Less else NotLess) else Unordered
  }

  function Scripted(): Host<Script> {
    Host((op, vals, s) => Next(s),
         (a, b, first, s) => (LessScripted(a, b), s),
         (a, b, s) => (Some(a == b), s))
  }

  function Play(e: Expr, s: Script): (Option<Value>, Script) {
    Eval(Scripted(), map[], e, s)
  }

  /** Played from `vals`, whatever follows, `e` uses up `vals` and returns `v`. */
  ghost predicate Yields(e: Expr, vals: seq<Value>, v: Value) {
    forall rest, n: nat :: Play(e, Script(vals + rest, n)) == (Some(v), Script(rest, n + |vals|))
  }

  ghost predicate OrderedPlay(e: Expr, vals: seq<Value>) {
    forall rest, n: nat :: FlipsOrdered(Scripted(), map[], e, Script(vals + rest, n))
  }

  lemma {:induction false} YieldsBoth(l: Expr, r: Expr, a: seq<Value>, b: seq<Value>, v: Value, u: Value, rest: seq<Value>, n: nat)
    requires Yields(l, a, v) && Yields(r, b, u)
    ensures Play(l, Script(a + b + rest, n)) == (Some(v), Script(b + rest, n + |a|))
    ensures Play(r, Script(b + rest, n + |a|)) == (Some(u), Script(rest, n + |a + b|))
  {
    assert a + b + rest == a + (b + rest);
  }

  /** Operands on which a comparison of booleans gives the wanted result. */
  function Operands(op: CmpOp, want: bool): (bool, bool) {
    match op
    case StrictEq | LooseEq => (true, want)
    case StrictNe | LooseNe => (true, !want)
    case Lt => (!want, true)
    case Gt => (true, !want)
    case Le => (true, want)
    case Ge => (want, true)
  }

  /** Every expression can be scripted to either boolean, with all its flips ordered. */
  lemma {:induction false} ScriptBool(e: Expr, want: bool) returns (vals: seq<Value>)
    ensures |vals| > 0 && AllBool(vals) && Yields(e, vals, Bool(want)) && OrderedPlay(e, vals)
  {
    match e
    case Atom(_, _) => vals := [Bool(want)]; ScriptOne(e, vals[0]);
    case Loose(_, _) => vals := [Bool(want)]; ScriptOne(e, vals[0]);
    case Paren(inner) => vals := ScriptBool(inner, want);
    case Not(operand) => vals := ScriptBool(operand, !want);
    case And(l, r) =>
      vals := ScriptBool(l, want);
      if want {
        var more := ScriptBool(r, want);
        ScriptPair(e, l, r, vals, more, Bool(true), Bool(want));
        vals := vals + more;
      }
    case Or(l, r) =>
      vals := ScriptBool(l, want);
      if !want {
        var more := ScriptBool(r, want);
        ScriptPair(e, l, r, vals, more, Bool(false), Bool(want));
        vals := vals + more;
      }
    case Cmp(op, l, r) =>
      var (x, y) := Operands(op, want);
      vals := ScriptBool(l, x);
      var more := ScriptBool(r, y);
      ScriptCompare(e, vals, more, Bool(x), Bool(y));
      vals := vals + more;
  }

  predicate AllBool(vals: seq<Value>) {
    forall i :: 0 <= i < |vals| ==> vals[i].Bool?
  }

  lemma {:induction false} ScriptOne(e: Expr, v: Value)
    requires e.Atom? || e.Loose?
    ensures Yields(e, [v], v) && OrderedPlay(e, [v])
  {
    forall rest, n: nat ensures Play(e, Script([v] + rest, n)) == (Some(v), Script(rest, n + 1)) {
      assert ([v] + rest)[1..] == rest;
    }
  }

  /** Both operands of `&&` or `||` are evaluated, and the right one gives the value. */
  lemma {:induction false} ScriptPair(e: Expr, l: Expr, r: Expr, a: seq<Value>, b: seq<Value>, v: Value, u: Value)
    requires (e == And(l, r) && Truthy(v)) || (e == Or(l, r) && !Truthy(v))
    requires Yields(l, a, v) && Yields(r, b, u)
    ensures Yields(e, a + b, u)
    ensures OrderedPlay(l, a) && OrderedPlay(r, b) ==> OrderedPlay(e, a + b)
  {
    forall rest, n: nat ensures Play(e, Script(a + b + rest, n)) == (Some(u), Script(rest, n + |a + b|)) {
      YieldsBoth(l, r, a, b, v, u, rest, n);
    }
    if OrderedPlay(l, a) && OrderedPlay(r, b) {
      forall rest, n: nat ensures FlipsOrdered(Scripted(), map[], e, Script(a + b + rest, n)) {
        YieldsBoth(l, r, a, b, v, u, rest, n);
        assert a + b + rest == a + (b + rest);
      }
    }
  }

  lemma {:induction false} ScriptCompare(e: Expr, a: seq<Value>, b: seq<Value>, v: Value, u: Value)
    requires e.Cmp? && Yields(e.left, a, v) && Yields(e.right, b, u)
    ensures var result := Compare(Scripted(), e.cmp, v, u, Script([], 0)).0;
            result.Some? && Yields(e, a + b, result.value)
    ensures v.Bool? && u.Bool? ==> OrderedPlay(e, a + b)
  {
    var result := Compare(Scripted(), e.cmp, v, u, Script([], 0)).0;
    forall rest, n: nat ensures Play(e, Script(a + b + rest, n)) == (Some(result.value), Script(rest, n + |a + b|)) {
      YieldsBoth(e.left, e.right, a, b, v, u, rest, n);
      PlayCompare(e, Script(a + b + rest, n), Script(b + rest, n + |a|), Script(rest, n + |a + b|), v, u);
    }
    if v.Bool? && u.Bool? {
      forall rest, n: nat ensures FlipsOrdered(Scripted(), map[], e, Script(a + b + rest, n)) {
        YieldsBoth(e.left, e.right, a, b, v, u, rest, n);
        PlayCompare(e, Script(a + b + rest, n), Script(b + rest, n + |a|), Script(rest, n + |a + b|), v, u);
      }
    }
  }

  /** Comparing leaves the script as it is, and finds an order between booleans. */
  lemma {:induction false} PlayCompare(e: Expr, s: Script, t: Script, after: Script, v: Value, u: Value)
    requires e.Cmp? && Play(e.left, s) == (Some(v), t) && Play(e.right, t) == (Some(u), after)
    ensures var result := Compare(Scripted(), e.cmp, v, u, Script([], 0)).0;
            result.Some? && Play(e, s) == (result, after)
    ensures v.Bool? && u.Bool? ==> FlipsOrdered(Scripted(), map[], e, s)
  {
    if v.Bool? && u.Bool? {
      BoolsOrdered(e, s, t, after, v, u);
    }
    hide FlipsOrdered;
  }

  lemma {:induction false} BoolsOrdered(e: Expr, s: Script, t: Script, after: Script, v: Value, u: Value)
    requires e.Cmp? && Play(e.left, s) == (Some(v), t) && Play(e.right, t) == (Some(u), after) && v.Bool? && u.Bool?
    ensures FlipsOrdered(Scripted(), map[], e, s)
  {
  }

  /** An expression that may be something else can be scripted to be. */
  lemma {:induction false} ScriptOther(e: Expr, t: bool) returns (vals: seq<Value>, v: Value)
    requires MayBeOther(e, t)
    ensures !v.Bool? && Truthy(v) == t && Yields(e, vals, v)
  {
    match e
    case Atom(_, _) => v := if t then Object(0) else NaN; vals := [v]; ScriptOne(e, v);
    case Loose(_, _) => v := if t then Object(0) else NaN; vals := [v]; ScriptOne(e, v);
    case Paren(inner) => vals, v := ScriptOther(inner, t);
    case And(l, r) =>
      if MayBeOther(r, t) {
        var first := ScriptBool(l, true);
        vals, v := ScriptOther(r, t);
        ScriptPair(e, l, r, first, vals, Bool(true), v);
        vals := first + vals;
      } else {
        vals, v := ScriptOther(l, false);
      }
    case Or(l, r) =>
      if MayBeOther(r, t) {
        var first := ScriptBool(l, false);
        vals, v := ScriptOther(r, t);
        ScriptPair(e, l, r, first, vals, Bool(false), v);
        vals := first + vals;
      } else {
        vals, v := ScriptOther(l, true);
      }
  }

  // ---------------------------------------------------------------- what is left to do after a comparison

  /** Pending right operands, innermost first. */
  datatype Pending = AndThen(right: Expr) | OrElse(right: Expr)

  /** Deciding the whole expression once the comparison gave `b`. */
  function Resume(todo: seq<Pending>, b: bool, s: Script): (Decision, Script) {
    if todo == [] then (if b then Holds else Fails, s)
    else if todo[0].AndThen? == b then
      var (d, t) := Decide(Play(todo[0].right, s));
      if d.Threw? then (d, t) else Resume(todo[1..], d.Holds?, t)
    else Resume(todo[1..], b, s)
  }

  lemma {:induction false} ResumeAppend(todo: seq<Pending>, last: Pending, b: bool, s: Script)
    ensures var (d, t) := Resume(todo, b, s);
            Resume(todo + [last], b, s) == if d.Threw? then (d, t) else Resume([last], d.Holds?, t)
  {
    var all := todo + [last];
    if todo == [] {
      assert all == [last];
    } else {
      assert all[0] == todo[0] && all[1..] == todo[1..] + [last];
      if todo[0].AndThen? == b {
        var (d, t) := Decide(Play(todo[0].right, s));
        ResumeAppend(todo[1..], last, d.Holds?, t);
      } else {
        ResumeAppend(todo[1..], last, b, s);
      }
    }
  }

  /**
   Played from `vals`, the evaluation of `e` reaches an unordered comparison: the comparison fails, and `todo` is left.
   Its flip fails as well, so the inverse goes on as if the comparison had held.
   */
  ghost predicate Splits(e: Expr, vals: seq<Value>, todo: seq<Pending>) {
    forall rest, n: nat :: AllBool(rest) ==> SplitsAt(e, vals, todo, rest, n)
  }

  ghost predicate SplitsAt(e: Expr, vals: seq<Value>, todo: seq<Pending>, rest: seq<Value>, n: nat) {
    var s, after := Script(vals + rest, n), Script(rest, n + |vals|);
    var (d, t) := Resume(todo, true, after);
    && Decide(Play(e, s)) == Resume(todo, false, after)
    && Decide(Play(Inverse(e), s)) == (Opposite(d), t)
  }

  /** While the script holds booleans only, values are booleans and every flip is ordered. */
  lemma {:induction false} BoolPlay(e: Expr, s: Script)
    requires AllBool(s.vals)
    ensures var (v, t) := Play(e, s); v.Some? && v.value.Bool? && AllBool(t.vals)
    ensures FlipsOrdered(Scripted(), map[], e, s)
  {
    match e
    case Paren(inner) => BoolPlay(inner, s);
    case Not(operand) => BoolPlay(operand, s);
    case And(l, r) =>
      BoolPlay(l, s);
      BoolPlay(r, Play(l, s).1);
    case Or(l, r) =>
      BoolPlay(l, s);
      BoolPlay(r, Play(l, s).1);
    case Cmp(op, l, r) =>
      BoolPlay(l, s);
      BoolPlay(r, Play(l, s).1);
      PlayCompare(e, s, Play(l, s).1, Play(r, Play(l, s).1).1, Play(l, s).0.value, Play(r, Play(l, s).1).0.value);
      BoolCompares(op, Play(l, s).0.value, Play(r, Play(l, s).1).0.value);
    case _ =>
  }

  lemma {:induction false} BoolCompares(op: CmpOp, v: Value, u: Value)
    requires v.Bool? && u.Bool?
    ensures var result := Compare(Scripted(), op, v, u, Script([], 0)).0; result.Some? && result.value.Bool?
  {
  }

  lemma {:induction false} BoolResume(todo: seq<Pending>, b: bool, s: Script)
    requires AllBool(s.vals)
    ensures var (d, t) := Resume(todo, b, s); !d.Threw? && AllBool(t.vals)
  {
    if todo != [] {
      if todo[0].AndThen? == b {
        BoolPlay(todo[0].right, s);
        var (d, t) := Decide(Play(todo[0].right, s));
        BoolResume(todo[1..], d.Holds?, t);
      } else {
        BoolResume(todo[1..], b, s);
      }
    }
  }

  /** The unsafe comparison is in the left operand: the right one is pending. */
  lemma {:induction false} SplitLeft(e: Expr, vals: seq<Value>, todo: seq<Pending>)
    requires (e.And? || e.Or?) && Splits(e.left, vals, todo)
    ensures Splits(e, vals, todo + [if e.And? then AndThen(e.right) else OrElse(e.right)])
  {
    var last := if e.And? then AndThen(e.right) else OrElse(e.right);
    forall rest, n: nat | AllBool(rest) ensures SplitsAt(e, vals, todo + [last], rest, n) {
      var after := Script(rest, n + |vals|);
      assert SplitsAt(e.left, vals, todo, rest, n);
      ResumeLast(todo, last, false, after);
      ResumeLast(todo, last, true, after);
      var t := Resume(todo, true, after).1;
      BoolResume(todo, true, after);
      BoolPlay(e.right, t);
      InverseDecides(Scripted(), map[], e.right, t);
      InverseOfBinary(Scripted(), map[], e, Script(vals + rest, n));
    }
  }

  lemma {:induction false} ResumeLast(todo: seq<Pending>, last: Pending, b: bool, s: Script)
    requires AllBool(s.vals)
    ensures var (d, t) := Resume(todo, b, s);
            && !d.Threw?
            && Resume(todo + [last], b, s) ==
               if last.AndThen? == d.Holds? then Decide(Play(last.right, t)) else (d, t)
  {
    ResumeAppend(todo, last, b, s);
    BoolResume(todo, b, s);
    ResumeOne(last, Resume(todo, b, s));
  }

  lemma {:induction false} ResumeOne(last: Pending, r: (Decision, Script))
    requires !r.0.Threw?
    ensures Resume([last], r.0.Holds?, r.1) ==
            if last.AndThen? == r.0.Holds? then Decide(Play(last.right, r.1)) else r
  {
    var todo := [last];
    assert todo[1..] == [];
  }

  /** The unsafe comparison is in the right operand: the left one is scripted to let the evaluation reach it. */
  lemma {:induction false} SplitRight(e: Expr, first: seq<Value>, vals: seq<Value>, todo: seq<Pending>)
    requires (e.And? || e.Or?) && Splits(e.right, vals, todo)
    requires Yields(e.left, first, Bool(e.And?)) && OrderedPlay(e.left, first)
    ensures Splits(e, first + vals, todo)
  {
    hide Play, FlipsOrdered, SplitsAt;
    forall rest, n: nat | AllBool(rest) ensures SplitsAt(e, first + vals, todo, rest, n) {
      assert first + vals + rest == first + (vals + rest);
      assert Play(e.left, Script(first + (vals + rest), n)) == (Some(Bool(e.And?)), Script(vals + rest, n + |first|));
      assert FlipsOrdered(Scripted(), map[], e.left, Script(first + (vals + rest), n));
      assert SplitsAt(e.right, vals, todo, rest, n + |first|);
      SplitRightAt(e, first, vals, todo, rest, n);
    }
  }

  lemma {:induction false} SplitRightAt(e: Expr, first: seq<Value>, vals: seq<Value>, todo: seq<Pending>, rest: seq<Value>, n: nat)
    requires (e.And? || e.Or?) && SplitsAt(e.right, vals, todo, rest, n + |first|)
    requires var s := Script(first + vals + rest, n);
             Play(e.left, s) == (Some(Bool(e.And?)), Script(vals + rest, n + |first|)) && FlipsOrdered(Scripted(), map[], e.left, s)
    ensures SplitsAt(e, first + vals, todo, rest, n)
  {
    var s := Script(first + vals + rest, n);
    InverseDecides(Scripted(), map[], e.left, s);
    InverseOfBinary(Scripted(), map[], e, s);
    hide FlipsOrdered, Resume, Inverse;
  }

  /** An unsafe expression can be scripted to reach an unordered comparison. */
  lemma {:induction false} ReachSplit(e: Expr) returns (vals: seq<Value>, todo: seq<Pending>)
    requires !SafeFlips(e)
    ensures Splits(e, vals, todo)
  {
    match e
    case Paren(inner) =>
      vals, todo := ReachSplit(inner);
      forall rest, n: nat | AllBool(rest) ensures SplitsAt(e, vals, todo, rest, n) {
        assert SplitsAt(inner, vals, todo, rest, n);
      }
    case And(l, r) =>
      if SafeFlips(l) {
        var first := ScriptBool(l, true);
        vals, todo := ReachSplit(r);
        SplitRight(e, first, vals, todo);
        vals := first + vals;
      } else {
        vals, todo := ReachSplit(l);
        SplitLeft(e, vals, todo);
        todo := todo + [AndThen(r)];
      }
    case Or(l, r) =>
      if SafeFlips(l) {
        var first := ScriptBool(l, false);
        vals, todo := ReachSplit(r);
        SplitRight(e, first, vals, todo);
        vals := first + vals;
      } else {
        vals, todo := ReachSplit(l);
        SplitLeft(e, vals, todo);
        todo := todo + [OrElse(r)];
      }
    case Cmp(op, l, r) =>
      vals := ReachCompare(e);
      todo := [];
  }

  lemma {:induction false} ReachCompare(e: Expr) returns (vals: seq<Value>)
    requires e.Cmp? && !SafeFlips(e)
    ensures Splits(e, vals, [])
  {
    var a, b, v, u;
    if AlwaysBool(e.left) {
      a := ScriptBool(e.left, true);
      v := Bool(true);
      b, u := ScriptOther(e.right, MayBeOther(e.right, true));
    } else {
      a, v := ScriptOther(e.left, MayBeOther(e.left, true));
      b := ScriptBool(e.right, true);
      u := Bool(true);
    }
    vals := a + b;
    ScriptCompare(e, a, b, v, u);
    ScriptCompare(Inverse(e), a, b, v, u);
    forall rest, n: nat | AllBool(rest) ensures SplitsAt(e, vals, [], rest, n) {
      var s, after := Script(vals + rest, n), Script(rest, n + |vals|);
      assert Play(e, s) == (Some(Bool(false)), after) && Play(Inverse(e), s) == (Some(Bool(false)), after);
    }
  }

  // ---------------------------------------------------------------- the two continuations part

  /** How much a script had used before makes no difference. */
  lemma {:induction false} PlayShift(e: Expr, vals: seq<Value>, n: nat)
    ensures var (v, t) := Play(e, Script(vals, 0));
            Play(e, Script(vals, n)) == (v, Script(t.vals, n + t.used))
    decreases e, 1
  {
    match e
    case Paren(inner) => PlayShift(inner, vals, n);
    case Not(operand) => PlayShift(operand, vals, n);
    case And(l, r) => PlayShiftBoth(e, l, r, vals, n);
    case Or(l, r) => PlayShiftBoth(e, l, r, vals, n);
    case Cmp(op, l, r) => PlayShiftBoth(e, l, r, vals, n);
    case _ =>
  }

  lemma {:induction false} PlayShiftBoth(e: Expr, l: Expr, r: Expr, vals: seq<Value>, n: nat)
    requires l < e && r < e
    ensures var (v, t) := Play(l, Script(vals, 0));
            var (u, w) := Play(r, t);
            && Play(l, Script(vals, n)) == (v, Script(t.vals, n + t.used))
            && Play(r, Script(t.vals, n + t.used)) == (u, Script(w.vals, n + w.used))
    decreases e, 0
  {
    PlayShift(l, vals, n);
    var (v, t) := Play(l, Script(vals, 0));
    PlayShift(r, t.vals, n + t.used);
    PlayShift(r, t.vals, t.used);
  }

  lemma {:induction false} ResumeShift(todo: seq<Pending>, b: bool, vals: seq<Value>, n: nat)
    ensures var (d, t) := Resume(todo, b, Script(vals, 0));
            Resume(todo, b, Script(vals, n)) == (d, Script(t.vals, n + t.used))
  {
    if todo != [] {
      if todo[0].AndThen? == b {
        PlayShift(todo[0].right, vals, n);
        var (d, t) := Decide(Play(todo[0].right, Script(vals, 0)));
        ResumeShift(todo[1..], d.Holds?, t.vals, n + t.used);
        ResumeShift(todo[1..], d.Holds?, t.vals, t.used);
      } else {
        ResumeShift(todo[1..], b, vals, n);
      }
    }
  }

  function Size(e: Expr): nat {
    match e
    case Atom(_, _) | Loose(_, _) => 1
    case Paren(inner) => Size(inner)
    case Not(operand) => Size(operand)
    case And(l, r) => Size(l) + Size(r)
    case Or(l, r) => Size(l) + Size(r)
    case Cmp(_, l, r) => Size(l) + Size(r)
  }

  function TodoSize(todo: seq<Pending>): nat {
    if todo == [] then 0 else Size(todo[0].right) + TodoSize(todo[1..])
  }

  lemma {:induction false} PlayBound(e: Expr, s: Script)
    ensures s.used <= Play(e, s).1.used <= s.used + Size(e)
  {
    match e
    case Paren(inner) => PlayBound(inner, s);
    case Not(operand) => PlayBound(operand, s);
    case And(l, r) =>
      PlayBound(l, s);
      PlayBound(r, Play(l, s).1);
    case Or(l, r) =>
      PlayBound(l, s);
      PlayBound(r, Play(l, s).1);
    case Cmp(_, l, r) =>
      PlayBound(l, s);
      PlayBound(r, Play(l, s).1);
    case _ =>
  }

  lemma {:induction false} ResumeBound(todo: seq<Pending>, b: bool, s: Script)
    ensures Resume(todo, b, s).1.used <= s.used + TodoSize(todo)
  {
    if todo != [] {
      if todo[0].AndThen? == b {
        PlayBound(todo[0].right, s);
        var (d, t) := Decide(Play(todo[0].right, s));
        ResumeBound(todo[1..], d.Holds?, t);
      } else {
        ResumeBound(todo[1..], b, s);
      }
    }
  }

  function Length(todo: seq<Pending>, b: bool, vals: seq<Value>): nat {
    Resume(todo, b, Script(vals, 0)).1.used
  }

  /** Some script of booleans makes the continuation as long as it can get. */
  lemma {:induction false} Longest(todo: seq<Pending>, b: bool, vals: seq<Value>) returns (best: seq<Value>)
    requires AllBool(vals)
    ensures AllBool(best) && forall other :: AllBool(other) ==> Length(todo, b, other) <= Length(todo, b, best)
    decreases TodoSize(todo) - Length(todo, b, vals)
  {
    if longer :| AllBool(longer) && Length(todo, b, longer) > Length(todo, b, vals) {
      ResumeBound(todo, b, Script(longer, 0));
      best := Longest(todo, b, longer);
    } else {
      best := vals;
    }
  }

  /** Whether the comparison held makes a difference, in the decision or in how much was evaluated. */
  lemma {:induction false} ContinuationsPart(todo: seq<Pending>) returns (rest: seq<Value>)
    ensures AllBool(rest) && forall n: nat :: Resume(todo, false, Script(rest, n)) != Resume(todo, true, Script(rest, n))
  {
    rest := [];
    if todo != [] {
      var skip := !todo[0].AndThen?;
      var best := Longest(todo[1..], skip, []);
      var first := ScriptBool(todo[0].right, skip);
      rest := first + best;
      forall n: nat ensures Resume(todo, skip, Script(rest, n)).1 != Resume(todo, !skip, Script(rest, n)).1 {
        assert Play(todo[0].right, Script(rest, n)) == (Some(Bool(skip)), Script(best, n + |first|));
        ResumeShift(todo[1..], skip, best, n + |first|);
        ResumeShift(todo[1..], skip, rest, n);
        assert Length(todo[1..], skip, rest) <= Length(todo[1..], skip, best);
      }
    }
  }

  // ---------------------------------------------------------------- exactness

  lemma {:induction false} DisjunctionSafe(guards: seq<Expr>)
    requires guards != []
    ensures SafeFlips(Disjunction(guards)) <==> AllSafe(guards)
  {
    if |guards| > 1 {
      var init, last := guards[..|guards| - 1], guards[|guards| - 1];
      DisjunctionSafe(init);
      assert guards == init + [last];
    }
  }

  /** On an unsafe guard list some run of the scripted host tells the guards and the inverted condition apart. */
  lemma {:induction false} UnsafeDiffers(guards: seq<Expr>) returns (s: Script)
    requires guards != [] && !AllSafe(guards)
    ensures Decide(Play(Combined(guards), s)) != RunGuards(Scripted(), map[], guards, s)
  {
    var e := Disjunction(guards);
    CombinedIsInverse(guards);
    DisjunctionSafe(guards);
    var vals, todo := ReachSplit(e);
    var rest := ContinuationsPart(todo);
    s := Script(vals + rest, 0);
    GuardsAreDisjunction(Scripted(), map[], guards, s);
    assert SplitsAt(e, vals, todo, rest, 0);
    assert Resume(todo, false, Script(rest, |vals|)) != Resume(todo, true, Script(rest, |vals|));
  }

  /** Guard inversion preserves meaning on every host that orders booleans exactly when no flip is unsafe. */
  lemma {:induction false} InversionExact<S(!new)>(guards: seq<Expr>, h: Host<S>, frame: Frame, s: S)
    requires guards != [] && OrdersBooleans(h)
    ensures AllSafe(guards) ==> Decide(Eval(h, frame, Combined(guards), s)) == RunGuards(h, frame, guards, s)
    ensures OrdersBooleans(Scripted())
    ensures AllSafe(guards) <==>
            forall t :: Decide(Play(Combined(guards), t)) == RunGuards(Scripted(), map[], guards, t)
  {
    if AllSafe(guards) {
      AllSafeIsOrdered(h, frame, guards, s);
      GuardInversionSound(h, frame, guards, s);
      forall t ensures Decide(Play(Combined(guards), t)) == RunGuards(Scripted(), map[], guards, t) {
        AllSafeIsOrdered(Scripted(), map[], guards, t);
        GuardInversionSound(Scripted(), map[], guards, t);
      }
    } else {
      var t := UnsafeDiffers(guards);
    }
  }
}
