/**
 Statements with scopes, and what replacing names in them means (scripts/inline-functions.ts).

 Names are looked up lexically: a block's own declarations hide those around it, from its start on, and a variable
 that is declared but not initialized yet throws when it is read. Replacing a name follows its references, so it stops
 at a block that declares the name anew. It does not look at the names declared where the new name ends up.
 */
module BodyScope {
  import opened Prelude
  import opened InlineExpr
  import opened GuardInversion

  /**
   An expression statement, a `const` or `let`, or a statement with a block of its own: `if (header) { body }`, or
   `while (header) { body }` when it `repeats`.
   */
  datatype Stmt =
    | Do(op: nat, refs: seq<Mention>)
    | Local(name: string, op: nat, refs: seq<Mention>)
    | Nested(op: nat, refs: seq<Mention>, repeats: bool, body: seq<Stmt>)

  // ---------------------------------------------------------------- names

  function NamesOf(refs: seq<Mention>): set<string> {
    set i | 0 <= i < |refs| && refs[i].o.Ref? && refs[i].Free() :: refs[i].o.name
  }

  function NamesIn(e: Expr): set<string> {
    match e
    case Atom(_, refs) => NamesOf(refs)
    case Loose(_, refs) => NamesOf(refs)
    case Paren(inner) => NamesIn(inner)
    case Not(operand) => NamesIn(operand)
    case And(l, r) => NamesIn(l) + NamesIn(r)
    case Or(l, r) => NamesIn(l) + NamesIn(r)
    case Cmp(_, l, r) => NamesIn(l) + NamesIn(r)
  }

  function NamesInAll(guards: seq<Expr>): set<string> {
    if guards == [] then {} else NamesIn(guards[0]) + NamesInAll(guards[1..])
  }

  /** Names a block declares itself. */
  function Declared(stmts: seq<Stmt>): set<string> {
    if stmts == [] then {} else (if stmts[0].Local? then {stmts[0].name} else {}) + Declared(stmts[1..])
  }

  function MentionsOf(stmt: Stmt): set<string>
    decreases stmt
  {
    NamesOf(stmt.refs) + if stmt.Nested? then Mentions(stmt.body) - Declared(stmt.body) else {}
  }

  /** Names the statements mention, except where an inner block declares them anew. */
  function Mentions(stmts: seq<Stmt>): set<string>
    decreases stmts
  {
    if stmts == [] then {} else MentionsOf(stmts[0]) + Mentions(stmts[1..])
  }

  /** Names a block takes from outside. */
  function FreeNames(block: seq<Stmt>): set<string> {
    Mentions(block) - Declared(block)
  }

  predicate DistinctLocals(stmts: seq<Stmt>) {
    stmts == [] || ((stmts[0].Local? ==> stmts[0].name !in Declared(stmts[1..])) && DistinctLocals(stmts[1..]))
  }

  // ---------------------------------------------------------------- running

  /** `Rejected`: the program is not one, because a block declares a name that may not be declared there. */
  datatype Outcome = Completed | Thrown | OutOfFuel | Rejected

  /** The scope inside a block that declares `names`. */
  function Enter(frame: Frame, names: set<string>): Frame {
    frame + map n | n in names :: None
  }

  /** `fuel` bounds how often loops repeat; a run that would go on is cut off. */
  function RunStmts<S>(h: Host<S>, frame: Frame, stmts: seq<Stmt>, fuel: nat, s: S): (Outcome, S)
    decreases fuel, stmts, 3
  {
    if stmts == [] then (Completed, s)
    else
      var (o, f, t) := RunStmt(h, frame, stmts[0], fuel, s);
      if o.Completed? then RunStmts(h, f, stmts[1..], fuel, t) else (o, t)
  }

  /** One statement, and the scope after it. */
  function RunStmt<S>(h: Host<S>, frame: Frame, stmt: Stmt, fuel: nat, s: S): (Outcome, Frame, S)
    decreases fuel, stmt, 2
  {
    if stmt.Nested? then
      var (o, t) := RunNested(h, frame, stmt, fuel, s);
      (o, frame, t)
    else
      var (v, t) := h.operation(stmt.op, SeeAll(frame, stmt.refs), s);
      if v.None? then (Thrown, frame, t)
      else (Completed, if stmt.Local? then frame[stmt.name := v] else frame, t)
  }

  /** The header once, and the block if it holds; true if the statement starts over. */
  function RunOnce<S>(h: Host<S>, frame: Frame, stmt: Stmt, fuel: nat, s: S): (Outcome, bool, S)
    requires stmt.Nested?
    decreases fuel, stmt, 0
  {
    var (v, t) := h.operation(stmt.op, SeeAll(frame, stmt.refs), s);
    if v.None? then (Thrown, false, t)
    else if !Truthy(v.value) then (Completed, false, t)
    else
      var (o, u) := RunStmts(h, Enter(frame, Declared(stmt.body)), stmt.body, fuel, t);
      (o, o.Completed? && stmt.repeats, u)
  }

  function RunNested<S>(h: Host<S>, frame: Frame, stmt: Stmt, fuel: nat, s: S): (Outcome, S)
    requires stmt.Nested?
    decreases fuel, stmt, 1
  {
    var (o, again, t) := RunOnce(h, frame, stmt, fuel, s);
    if !again then (o, t)
    else if fuel == 0 then (OutOfFuel, t)
    else RunNested(h, frame, stmt, fuel - 1, t)
  }

  lemma {:induction false} NeverRejected<S>(h: Host<S>, frame: Frame, stmts: seq<Stmt>, fuel: nat, s: S)
    ensures !RunStmts(h, frame, stmts, fuel, s).0.Rejected?
    decreases fuel, stmts, 3
  {
    if stmts != [] {
      var (o, f, t) := RunStmt(h, frame, stmts[0], fuel, s);
      StmtNotRejected(h, frame, stmts[0], fuel, s);
      if o.Completed? {
        NeverRejected(h, f, stmts[1..], fuel, t);
      }
    }
  }

  lemma {:induction false} StmtNotRejected<S>(h: Host<S>, frame: Frame, stmt: Stmt, fuel: nat, s: S)
    ensures !RunStmt(h, frame, stmt, fuel, s).0.Rejected?
    decreases fuel, stmt, 2
  {
    if stmt.Nested? {
      var v := h.operation(stmt.op, SeeAll(frame, stmt.refs), s);
      if v.0.Some? && Truthy(v.0.value) {
        NeverRejected(h, Enter(frame, Declared(stmt.body)), stmt.body, fuel, v.1);
      }
      var (_, again, t) := RunOnce(h, frame, stmt, fuel, s);
      if again && fuel > 0 {
        StmtNotRejected(h, frame, stmt, fuel - 1, t);
      }
    }
  }

  // ---------------------------------------------------------------- replacing names

  type Subst = map<string, Operand>

  function SubstRef(sub: Subst, o: Operand): Operand {
    if o.Ref? && o.name in sub then sub[o.name] else o
  }

  function SubstMention(sub: Subst, m: Mention): Mention {
    if m.Free() then Mention(SubstRef(sub, m.o), m.under) else m
  }

  function SubstRefs(sub: Subst, refs: seq<Mention>): (r: seq<Mention>)
    ensures |r| == |refs| && forall i :: 0 <= i < |refs| ==> r[i] == SubstMention(sub, refs[i])
  {
    if refs == [] then [] else [SubstMention(sub, refs[0])] + SubstRefs(sub, refs[1..])
  }

  function SubstExpr(sub: Subst, e: Expr): Expr {
    match e
    case Atom(op, refs) => Atom(op, SubstRefs(sub, refs))
    case Loose(op, refs) => Loose(op, SubstRefs(sub, refs))
    case Paren(inner) => Paren(SubstExpr(sub, inner))
    case Not(operand) => Not(SubstExpr(sub, operand))
    case And(l, r) => And(SubstExpr(sub, l), SubstExpr(sub, r))
    case Or(l, r) => Or(SubstExpr(sub, l), SubstExpr(sub, r))
    case Cmp(op, l, r) => Cmp(op, SubstExpr(sub, l), SubstExpr(sub, r))
  }

  function SubstGuards(sub: Subst, guards: seq<Expr>): (r: seq<Expr>)
    ensures |r| == |guards|
  {
    if guards == [] then [] else [SubstExpr(sub, guards[0])] + SubstGuards(sub, guards[1..])
  }

  function Rename(sub: Subst, name: string): string {
    if name in sub && sub[name].Ref? then sub[name].name else name
  }

  function SubstStmt(sub: Subst, stmt: Stmt): (r: Stmt)
    ensures r.Nested? == stmt.Nested? && r.Local? == stmt.Local?
    decreases stmt
  {
    match stmt
    case Do(op, refs) => Do(op, SubstRefs(sub, refs))
    case Local(name, op, refs) => Local(Rename(sub, name), op, SubstRefs(sub, refs))
    case Nested(op, refs, repeats, body) =>
      Nested(op, SubstRefs(sub, refs), repeats, SubstStmts(sub - Declared(body), body))
  }

  /** Statements of the block in which `sub` renames. */
  function SubstStmts(sub: Subst, stmts: seq<Stmt>): (r: seq<Stmt>)
    ensures |r| == |stmts|
    decreases stmts
  {
    if stmts == [] then [] else [SubstStmt(sub, stmts[0])] + SubstStmts(sub, stmts[1..])
  }

  /** An inner block, which keeps its own names. */
  function SubstBlock(sub: Subst, block: seq<Stmt>): seq<Stmt> {
    SubstStmts(sub - Declared(block), block)
  }

  /** A name that an inner block takes from outside is replaced by one that the block declares. */
  predicate Hides(sub: Subst, block: seq<Stmt>) {
    exists x :: x in FreeNames(block) && x in sub && sub[x].Ref? && sub[x].name in Declared(block)
  }

  /** No scope inside the operation binds what a name in it is replaced by. */
  predicate ClearRefs(sub: Subst, refs: seq<Mention>) {
    forall i :: 0 <= i < |refs| && refs[i].Free() ==> SubstMention(sub, refs[i]).Free()
  }

  predicate ClearExpr(sub: Subst, e: Expr) {
    match e
    case Atom(_, refs) => ClearRefs(sub, refs)
    case Loose(_, refs) => ClearRefs(sub, refs)
    case Paren(inner) => ClearExpr(sub, inner)
    case Not(operand) => ClearExpr(sub, operand)
    case And(l, r) => ClearExpr(sub, l) && ClearExpr(sub, r)
    case Or(l, r) => ClearExpr(sub, l) && ClearExpr(sub, r)
    case Cmp(_, l, r) => ClearExpr(sub, l) && ClearExpr(sub, r)
  }

  predicate ClearGuards(sub: Subst, guards: seq<Expr>) {
    guards == [] || (ClearExpr(sub, guards[0]) && ClearGuards(sub, guards[1..]))
  }

  /** Neither an operation nor a block inside the statement hides what a name in it is replaced by. */
  predicate ClearStmt(sub: Subst, stmt: Stmt)
    decreases stmt, 0
  {
    ClearRefs(sub, stmt.refs) && (stmt.Nested? ==> !Hides(sub, stmt.body) && Clear(sub - Declared(stmt.body), stmt.body))
  }

  predicate Clear(sub: Subst, stmts: seq<Stmt>)
    decreases stmts
  {
    stmts == [] || (ClearStmt(sub, stmts[0]) && Clear(sub, stmts[1..]))
  }

  predicate ClearBlock(sub: Subst, block: seq<Stmt>) {
    !Hides(sub, block) && Clear(sub - Declared(block), block)
  }

  // ---------------------------------------------------------------- when it keeps the meaning

  /** Every one of the names reads inside what it read outside, once it is replaced. */
  ghost predicate Agree(sub: Subst, names: set<string>, outer: Frame, inner: Frame) {
    forall x :: x in names ==> Lookup(inner, SubstRef(sub, Ref(x))) == Lookup(outer, Ref(x))
  }

  /** Different names stay different. */
  ghost predicate Separate(sub: Subst, names: set<string>) {
    forall x, y :: x in names && y in names && x != y && SubstRef(sub, Ref(x)).Ref? ==>
      SubstRef(sub, Ref(x)) != SubstRef(sub, Ref(y))
  }

  /** Locals are replaced by names. */
  ghost predicate NamesLocals(sub: Subst, locals: set<string>) {
    forall x :: x in locals && x in sub ==> sub[x].Ref?
  }

  lemma {:induction false} RefsAgree(sub: Subst, names: set<string>, outer: Frame, inner: Frame, refs: seq<Mention>)
    requires Agree(sub, names, outer, inner) && NamesOf(refs) <= names && ClearRefs(sub, refs)
    ensures SeeAll(inner, SubstRefs(sub, refs)) == SeeAll(outer, refs)
  {
    forall i | 0 <= i < |refs| ensures See(inner, SubstMention(sub, refs[i])) == See(outer, refs[i]) {
      var o := refs[i].o;
      if o.Ref? && refs[i].Free() {
        assert o.name in NamesOf(refs) && o == Ref(o.name);
      }
    }
  }

  lemma {:induction false} LocalAgrees(sub: Subst, names: set<string>, outer: Frame, inner: Frame, x: string, v: Option<Value>)
    requires Agree(sub, names, outer, inner) && Separate(sub, names) && x in names && SubstRef(sub, Ref(x)).Ref?
    ensures Agree(sub, names, outer[x := v], inner[Rename(sub, x) := v])
  {
    assert SubstRef(sub, Ref(x)) == Ref(Rename(sub, x));
    forall y | y in names
      ensures Lookup(inner[Rename(sub, x) := v], SubstRef(sub, Ref(y))) == Lookup(outer[x := v], Ref(y))
    {
      if y != x {
        assert SubstRef(sub, Ref(y)) != SubstRef(sub, Ref(x));
      }
    }
  }

  /** In a block a name is the block's own, which stays, or one from around it, which is replaced as there. */
  lemma {:induction false} UnderBlock(sub: Subst, block: seq<Stmt>, x: string)
    requires x in Mentions(block) + Declared(block) && !Hides(sub, block)
    ensures var own, now := Declared(block), SubstRef(sub - Declared(block), Ref(x));
            && (x in own ==> now == Ref(x))
            && (x !in own ==> x in FreeNames(block) && now == SubstRef(sub, Ref(x)) && (now.Ref? ==> now.name !in own))
  {
    if x !in Declared(block) {
      assert x in FreeNames(block);
    }
  }

  /** Inside a block that hides nothing the names still agree. */
  lemma {:induction false} EnterAgrees(sub: Subst, names: set<string>, outer: Frame, inner: Frame, block: seq<Stmt>)
    requires Agree(sub, names, outer, inner) && FreeNames(block) <= names && !Hides(sub, block)
    ensures var own := Declared(block);
            Agree(sub - own, Mentions(block) + own, Enter(outer, own), Enter(inner, own))
  {
    hide FreeNames, Mentions, Declared, Hides;
    var own, less := Declared(block), sub - Declared(block);
    forall x | x in Mentions(block) + own
      ensures Lookup(Enter(inner, own), SubstRef(less, Ref(x))) == Lookup(Enter(outer, own), Ref(x))
    {
      UnderBlock(sub, block, x);
    }
  }

  lemma {:induction false} EnterSeparates(sub: Subst, names: set<string>, block: seq<Stmt>)
    requires Separate(sub, names) && FreeNames(block) <= names && !Hides(sub, block)
    ensures Separate(sub - Declared(block), Mentions(block) + Declared(block))
  {
    hide FreeNames, Mentions, Declared, Hides;
    var own, less := Declared(block), sub - Declared(block);
    forall x, y | x in Mentions(block) + own && y in Mentions(block) + own && x != y && SubstRef(less, Ref(x)).Ref?
      ensures SubstRef(less, Ref(x)) != SubstRef(less, Ref(y))
    {
      UnderBlock(sub, block, x);
      UnderBlock(sub, block, y);
    }
  }

  /** Replacing names keeps the meaning of statements, as long as no inner block hides a new name. */
  lemma {:induction false} StmtsAgree<S>(h: Host<S>, sub: Subst, names: set<string>, outer: Frame, inner: Frame,
                                         stmts: seq<Stmt>, fuel: nat, s: S)
    requires Agree(sub, names, outer, inner) && Separate(sub, names) && NamesLocals(sub, Declared(stmts))
    requires Mentions(stmts) + Declared(stmts) <= names && Clear(sub, stmts)
    ensures RunStmts(h, inner, SubstStmts(sub, stmts), fuel, s) == RunStmts(h, outer, stmts, fuel, s)
    decreases fuel, stmts, 5
  {
    if stmts != [] {
      hide Agree, Separate, ClearStmt, RunStmt, SubstStmt, MentionsOf, NamesLocals;
      NamesLocalsSplit(sub, stmts);
      var (o, f, t) := RunStmt(h, outer, stmts[0], fuel, s);
      StmtAgrees(h, sub, names, outer, inner, stmts[0], fuel, s);
      if o.Completed? {
        StmtsAgree(h, sub, names, f, RunStmt(h, inner, SubstStmt(sub, stmts[0]), fuel, s).1, stmts[1..], fuel, t);
      }
    }
  }

  lemma {:induction false} NamesLocalsSplit(sub: Subst, stmts: seq<Stmt>)
    requires stmts != [] && NamesLocals(sub, Declared(stmts))
    ensures NamesLocals(sub, Declared(stmts[1..])) && NamesLocals(sub, Declared([stmts[0]]))
  {
  }

  lemma {:induction false} StmtAgrees<S>(h: Host<S>, sub: Subst, names: set<string>, outer: Frame, inner: Frame,
                                         stmt: Stmt, fuel: nat, s: S)
    requires Agree(sub, names, outer, inner) && Separate(sub, names) && NamesLocals(sub, Declared([stmt]))
    requires MentionsOf(stmt) + Declared([stmt]) <= names && ClearStmt(sub, stmt)
    ensures var (o, f, t), (p, g, u) := RunStmt(h, outer, stmt, fuel, s), RunStmt(h, inner, SubstStmt(sub, stmt), fuel, s);
            o == p && t == u && Agree(sub, names, f, g)
    decreases fuel, stmt, 4
  {
    if stmt.Nested? {
      NestedAgrees(h, sub, names, outer, inner, stmt, fuel, s);
    } else {
      RefsAgree(sub, names, outer, inner, stmt.refs);
      var (v, t) := h.operation(stmt.op, SeeAll(outer, stmt.refs), s);
      if v.Some? && stmt.Local? {
        assert stmt.name in Declared([stmt]);
        LocalAgrees(sub, names, outer, inner, stmt.name, v);
      }
    }
  }

  lemma {:induction false} NestedAgrees<S>(h: Host<S>, sub: Subst, names: set<string>, outer: Frame, inner: Frame,
                                           stmt: Stmt, fuel: nat, s: S)
    requires Agree(sub, names, outer, inner) && Separate(sub, names)
    requires stmt.Nested? && MentionsOf(stmt) <= names && ClearStmt(sub, stmt)
    ensures RunNested(h, inner, SubstStmt(sub, stmt), fuel, s) == RunNested(h, outer, stmt, fuel, s)
    decreases fuel, stmt, 3
  {
    hide Agree, Separate, ClearStmt, MentionsOf, SubstStmt, RunOnce;
    OnceAgrees(h, sub, names, outer, inner, stmt, fuel, s);
    var (_, again, t) := RunOnce(h, outer, stmt, fuel, s);
    if again && fuel > 0 {
      NestedAgrees(h, sub, names, outer, inner, stmt, fuel - 1, t);
    }
  }

  lemma {:induction false} NestedParts(sub: Subst, names: set<string>, stmt: Stmt)
    requires stmt.Nested? && MentionsOf(stmt) <= names && ClearStmt(sub, stmt)
    ensures NamesOf(stmt.refs) <= names && FreeNames(stmt.body) <= names && ClearBlock(sub, stmt.body) && ClearRefs(sub, stmt.refs)
    ensures SubstStmt(sub, stmt) == Nested(stmt.op, SubstRefs(sub, stmt.refs), stmt.repeats, SubstBlock(sub, stmt.body))
  {
  }

  lemma {:induction false} OnceAgrees<S>(h: Host<S>, sub: Subst, names: set<string>, outer: Frame, inner: Frame,
                                         stmt: Stmt, fuel: nat, s: S)
    requires Agree(sub, names, outer, inner) && Separate(sub, names)
    requires stmt.Nested? && MentionsOf(stmt) <= names && ClearStmt(sub, stmt)
    ensures RunOnce(h, inner, SubstStmt(sub, stmt), fuel, s) == RunOnce(h, outer, stmt, fuel, s)
    decreases fuel, stmt, 2
  {
    NestedParts(sub, names, stmt);
    hide SubstStmt, SubstRefs, SubstBlock, SeeAll, ClearRefs, Agree, Separate, ClearStmt, ClearBlock, MentionsOf, FreeNames, NamesOf, Enter, SubstStmts, RunStmts;
    RefsAgree(sub, names, outer, inner, stmt.refs);
    var (v, t) := h.operation(stmt.op, SeeAll(outer, stmt.refs), s);
    if v.Some? && Truthy(v.value) {
      BlockAgrees(h, sub, names, outer, inner, stmt.body, fuel, t);
    }
  }

  /** A block keeps its own names. */
  lemma {:induction false} DeclaredStay(sub: Subst, stmts: seq<Stmt>)
    requires sub.Keys !! Declared(stmts)
    ensures Declared(SubstStmts(sub, stmts)) == Declared(stmts)
  {
    if stmts != [] {
      DeclaredStay(sub, stmts[1..]);
    }
  }

  lemma {:induction false} BlockAgrees<S>(h: Host<S>, sub: Subst, names: set<string>, outer: Frame, inner: Frame,
                                          block: seq<Stmt>, fuel: nat, s: S)
    requires Agree(sub, names, outer, inner) && Separate(sub, names) && FreeNames(block) <= names && ClearBlock(sub, block)
    ensures Declared(SubstBlock(sub, block)) == Declared(block)
    ensures RunStmts(h, Enter(inner, Declared(block)), SubstBlock(sub, block), fuel, s) ==
            RunStmts(h, Enter(outer, Declared(block)), block, fuel, s)
    decreases fuel, block, 6
  {
    var own, less := Declared(block), sub - Declared(block);
    EnterAgrees(sub, names, outer, inner, block);
    EnterSeparates(sub, names, block);
    DeclaredStay(less, block);
    hide Agree, Separate, Hides, Enter, RunStmts;
    StmtsAgree(h, less, Mentions(block) + own, Enter(outer, own), Enter(inner, own), block, fuel, s);
  }

  lemma {:induction false} ExprAgrees<S>(h: Host<S>, sub: Subst, names: set<string>, outer: Frame, inner: Frame, e: Expr, s: S)
    requires Agree(sub, names, outer, inner) && NamesIn(e) <= names && ClearExpr(sub, e)
    ensures Eval(h, inner, SubstExpr(sub, e), s) == Eval(h, outer, e, s)
    ensures FlipsOrdered(h, inner, SubstExpr(sub, e), s) <==> FlipsOrdered(h, outer, e, s)
    decreases e, 2
  {
    hide Agree, ClearRefs, SeeAll, NamesOf;
    match e
    case Atom(_, refs) => RefsAgree(sub, names, outer, inner, refs);
    case Loose(_, refs) => RefsAgree(sub, names, outer, inner, refs);
    case Paren(e) => ExprAgrees(h, sub, names, outer, inner, e, s);
    case Not(e) => ExprAgrees(h, sub, names, outer, inner, e, s);
    case And(l, r) => BothAgree(h, sub, names, outer, inner, e, l, r, s);
    case Or(l, r) => BothAgree(h, sub, names, outer, inner, e, l, r, s);
    case Cmp(op, l, r) => CmpAgrees(h, sub, names, outer, inner, op, l, r, s);
  }

  lemma {:induction false} CmpParts(sub: Subst, names: set<string>, op: CmpOp, l: Expr, r: Expr)
    requires NamesIn(Cmp(op, l, r)) <= names && ClearExpr(sub, Cmp(op, l, r))
    ensures NamesIn(l) <= names && NamesIn(r) <= names && ClearExpr(sub, l) && ClearExpr(sub, r)
    ensures SubstExpr(sub, Cmp(op, l, r)) == Cmp(op, SubstExpr(sub, l), SubstExpr(sub, r))
  {
  }

  lemma {:induction false} CmpAgrees<S>(h: Host<S>, sub: Subst, names: set<string>, outer: Frame, inner: Frame, op: CmpOp,
                                        l: Expr, r: Expr, s: S)
    requires var e := Cmp(op, l, r); Agree(sub, names, outer, inner) && NamesIn(e) <= names && ClearExpr(sub, e)
    ensures var e := Cmp(op, l, r);
            && Eval(h, inner, SubstExpr(sub, e), s) == Eval(h, outer, e, s)
            && (FlipsOrdered(h, inner, SubstExpr(sub, e), s) <==> FlipsOrdered(h, outer, e, s))
    decreases Cmp(op, l, r), 1
  {
    CmpParts(sub, names, op, l, r);
    hide Agree, ClearExpr, NamesIn, SubstExpr, Compare, OrderedAt;
    BothAgree(h, sub, names, outer, inner, Cmp(op, l, r), l, r, s);
    hide SeeAll;
  }

  lemma {:induction false} BothAgree<S>(h: Host<S>, sub: Subst, names: set<string>, outer: Frame, inner: Frame,
                                        e: Expr, l: Expr, r: Expr, s: S)
    requires l < e && r < e && Agree(sub, names, outer, inner) && NamesIn(l) <= names && NamesIn(r) <= names
    requires ClearExpr(sub, l) && ClearExpr(sub, r)
    ensures var t := Eval(h, outer, l, s).1;
            && Eval(h, inner, SubstExpr(sub, l), s) == Eval(h, outer, l, s)
            && Eval(h, inner, SubstExpr(sub, r), t) == Eval(h, outer, r, t)
            && (FlipsOrdered(h, inner, SubstExpr(sub, l), s) <==> FlipsOrdered(h, outer, l, s))
            && (FlipsOrdered(h, inner, SubstExpr(sub, r), t) <==> FlipsOrdered(h, outer, r, t))
    decreases e, 0
  {
    ExprAgrees(h, sub, names, outer, inner, l, s);
    ExprAgrees(h, sub, names, outer, inner, r, Eval(h, outer, l, s).1);
  }

  lemma {:induction false} GuardsAgree<S>(h: Host<S>, sub: Subst, names: set<string>, outer: Frame, inner: Frame,
                                          guards: seq<Expr>, s: S)
    requires Agree(sub, names, outer, inner) && NamesInAll(guards) <= names && ClearGuards(sub, guards)
    ensures RunGuards(h, inner, SubstGuards(sub, guards), s) == RunGuards(h, outer, guards, s)
    ensures AllFlipsOrdered(h, inner, SubstGuards(sub, guards), s) <==> AllFlipsOrdered(h, outer, guards, s)
  {
    if guards != [] {
      ExprAgrees(h, sub, names, outer, inner, guards[0], s);
      GuardsAgree(h, sub, names, outer, inner, guards[1..], Decide(Eval(h, outer, guards[0], s)).1);
    }
  }

  // ---------------------------------------------------------------- replacing in text, and in inverted guards

  function SubstTokens(sub: Subst, ts: seq<Token>): (r: seq<Token>)
    ensures |r| == |ts|
  {
    if ts == [] then []
    else
      var t := match ts[0]
        case AtomTok(op, refs) => AtomTok(op, SubstRefs(sub, refs))
        case LooseTok(op, refs) => LooseTok(op, SubstRefs(sub, refs))
        case t => t;
      [t] + SubstTokens(sub, ts[1..])
  }

  lemma {:induction false} SubstTokensConcat(sub: Subst, a: seq<Token>, b: seq<Token>)
    ensures SubstTokens(sub, a + b) == SubstTokens(sub, a) + SubstTokens(sub, b)
  {
    if a == [] {
      assert a + b == b;
    } else {
      assert (a + b)[0] == a[0] && (a + b)[1..] == a[1..] + b;
      SubstTokensConcat(sub, a[1..], b);
    }
  }

  /** Editing the text of an expression gives the text of the edited expression. */
  lemma {:induction false} SubstText(sub: Subst, e: Expr)
    ensures SubstTokens(sub, TextOf(e)) == TextOf(SubstExpr(sub, e))
    decreases e, 1
  {
    match e
    case Paren(inner) =>
      SubstText(sub, inner);
      SubstTokensConcat(sub, [LParen] + TextOf(inner), [RParen]);
      SubstTokensConcat(sub, [LParen], TextOf(inner));
    case Not(operand) =>
      SubstText(sub, operand);
      SubstTokensConcat(sub, [Bang], TextOf(operand));
    case And(l, r) => SubstTextBinary(sub, e, l, AndAnd, r);
    case Or(l, r) => SubstTextBinary(sub, e, l, OrOr, r);
    case Cmp(op, l, r) => SubstTextBinary(sub, e, l, CmpTok(op), r);
    case _ =>
  }

  lemma {:induction false} SubstTextBinary(sub: Subst, e: Expr, l: Expr, op: Token, r: Expr)
    requires !op.AtomTok? && !op.LooseTok? && l < e && r < e
    ensures SubstTokens(sub, TextOf(l) + [op] + TextOf(r)) ==
            TextOf(SubstExpr(sub, l)) + [op] + TextOf(SubstExpr(sub, r))
    decreases e, 0
  {
    SubstText(sub, l);
    SubstText(sub, r);
    SubstTokensConcat(sub, TextOf(l) + [op], TextOf(r));
    SubstTokensConcat(sub, TextOf(l), [op]);
  }

  lemma {:induction false} SubstPrec(sub: Subst, e: Expr)
    ensures LogicalPrec(SubstExpr(sub, e)) == LogicalPrec(e) && Negate(SubstExpr(sub, e)).prec == Negate(e).prec
  {
    match e
    case Paren(inner) => SubstPrec(sub, inner);
    case Not(operand) => SubstPrec(sub, operand);
    case _ =>
  }

  lemma {:induction false} SubstJoins(sub: Subst, l: Expr, r: Expr)
    ensures SubstExpr(sub, JoinOr(l, r)) == JoinOr(SubstExpr(sub, l), SubstExpr(sub, r))
    ensures SubstExpr(sub, JoinAnd(l, r)) == JoinAnd(SubstExpr(sub, l), SubstExpr(sub, r))
    decreases r
  {
    if r.Or? || r.And? {
      SubstJoins(sub, l, r.left);
    }
  }

  lemma {:induction false} SubstInverse(sub: Subst, e: Expr)
    ensures SubstExpr(sub, Inverse(e)) == Inverse(SubstExpr(sub, e))
  {
    match e
    case Paren(inner) => SubstInverse(sub, inner);
    case And(l, r) =>
      SubstInverse(sub, l);
      SubstInverse(sub, r);
      SubstJoins(sub, Inverse(l), Inverse(r));
    case Or(l, r) =>
      SubstInverse(sub, l);
      SubstInverse(sub, r);
      SubstPrec(sub, l);
      SubstPrec(sub, r);
      SubstJoins(sub, WrapTree(Inverse(l), Negate(l).prec), WrapTree(Inverse(r), Negate(r).prec));
    case _ =>
  }

  lemma {:induction false} SubstGuardsAt(sub: Subst, guards: seq<Expr>)
    requires guards != []
    ensures SubstGuards(sub, guards)[|guards| - 1] == SubstExpr(sub, guards[|guards| - 1])
    ensures SubstGuards(sub, guards)[..|guards| - 1] == SubstGuards(sub, guards[..|guards| - 1])
  {
    if |guards| > 1 {
      SubstGuardsAt(sub, guards[1..]);
      assert guards[..|guards| - 1][1..] == guards[1..][..|guards| - 2];
      assert SubstGuards(sub, guards)[1..] == SubstGuards(sub, guards[1..]);
    }
  }

  lemma {:induction false} SubstJoinTree(sub: Subst, guards: seq<Expr>)
    requires guards != []
    ensures SubstExpr(sub, JoinTree(guards)) == JoinTree(SubstGuards(sub, guards))
  {
    var init, g := guards[..|guards| - 1], guards[|guards| - 1];
    SubstGuardsAt(sub, guards);
    SubstInverse(sub, g);
    SubstPrec(sub, g);
    if init != [] {
      SubstJoinTree(sub, init);
      SubstJoins(sub, JoinTree(init), WrapTree(Inverse(g), Negate(g).prec));
    }
  }

  /** Editing the text of the combined condition gives the combined condition of the edited guards. */
  lemma {:induction false} SubstCombined(sub: Subst, guards: seq<Expr>)
    requires guards != []
    ensures SubstTokens(sub, CombineGuards(guards)) == TextOf(Combined(SubstGuards(sub, guards)))
  {
    CombinedText(guards);
    SubstText(sub, Combined(guards));
    SubstGuardsAt(sub, guards);
    if |guards| == 1 {
      SubstInverse(sub, guards[0]);
    } else {
      SubstJoinTree(sub, guards);
    }
  }
}
