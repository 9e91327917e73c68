/**
 Guard conditions of the inliner (scripts/inline-functions.ts) and what they mean.

 Expressions keep their parentheses, as a TypeScript syntax tree does. Everything the guard inversion does not look
 into is an opaque operation of a host: it sees what the names it mentions read, or that reading them throws; it may
 change the host's state and throw. The state `S` holds the heap and the trace of effects.
 */
module InlineExpr {
  import opened Prelude

  datatype CmpOp = StrictEq | StrictNe | LooseEq | LooseNe | Lt | Gt | Le | Ge

  /** A name, or the text `undefined` in the place of one. */
  datatype Operand = Ref(name: string) | UndefinedText

  /**
   A mention inside an operation, and the names that scopes inside the operation bind around it: parameters and locals of
   its functions, variables of catch clauses and loops. A mention of one of those is no mention of an outer name.
   */
  datatype Mention = Mention(o: Operand, under: set<string>) {
    predicate Free() {
      o.Ref? ==> o.name !in under
    }
  }

  /** `Loose` is an operation that binds looser than `||`, such as an assignment or a conditional expression. */
  datatype Expr =
    | Atom(op: nat, refs: seq<Mention>)
    | Loose(op: nat, refs: seq<Mention>)
    | Paren(inner: Expr)
    | Not(operand: Expr)
    | And(left: Expr, right: Expr)
    | Or(left: Expr, right: Expr)
    | Cmp(cmp: CmpOp, left: Expr, right: Expr)

  datatype Value = Undefined | Null | Bool(b: bool) | Number(n: real) | NaN | Text(t: string) | Object(id: nat)

  predicate Truthy(v: Value) {
    match v
    case Undefined | Null | NaN => false
    case Bool(b) => b
    case Number(n) => n != 0.0
    case Text(t) => t != ""
    case Object(_) => true
  }

  /** Result of the abstract relational comparison; conversions of its operands may throw. */
  datatype Ordering = Less | NotLess | Unordered | OrderingThrows

  /** What an operation finds at a mention: what the outer name reads, None if that throws, or a name of its own. */
  datatype Read = Outer(v: Option<Value>) | Own(name: string)

  /** The rest of the language. `less` is IsLessThan(x, y, leftFirst), section 7.2.13 of ECMA-262. */
  datatype Host<!S> = Host(
    operation: (nat, seq<Read>, S) -> (Option<Value>, S),
    less: (Value, Value, bool, S) -> (Ordering, S),
    looseEqual: (Value, Value, S) -> (Option<bool>, S))

  /** The variables in scope. None for one that is declared but not initialized yet: reading it throws. */
  type Frame = map<string, Option<Value>>

  /** What a name reads, or None if reading it throws. */
  function Lookup(frame: Frame, o: Operand): Option<Value> {
    match o
    case UndefinedText => Some(Undefined)
    case Ref(name) => if name in frame then frame[name] else None
  }

  function See(frame: Frame, m: Mention): Read {
    if m.Free() then Outer(Lookup(frame, m.o)) else Own(m.o.name)
  }

  function SeeAll(frame: Frame, refs: seq<Mention>): (seen: seq<Read>)
    ensures |seen| == |refs| && forall i :: 0 <= i < |refs| ==> seen[i] == See(frame, refs[i])
  {
    if refs == [] then [] else [See(frame, refs[0])] + SeeAll(frame, refs[1..])
  }

  /** A boolean result that is true when `o` is `want`. */
  function Outcome(o: Ordering, want: Ordering): Option<Value> {
    if o.OrderingThrows? then None else Some(Bool(o == want))
  }

  function BoolOf(b: Option<bool>, flip: bool): Option<Value> {
    if b.None? then None else Some(Bool(b.value != flip))
  }

  /** Sections 13.10.1 and 13.11.1 of ECMA-262, on values. */
  function Compare<S>(h: Host<S>, op: CmpOp, a: Value, b: Value, s: S): (Option<Value>, S) {
    match op
    case StrictEq => (Some(Bool(a == b && !a.NaN?)), s)
    case StrictNe => (Some(Bool(!(a == b && !a.NaN?))), s)
    case LooseEq => var (r, t) := h.looseEqual(a, b, s); (BoolOf(r, false), t)
    case LooseNe => var (r, t) := h.looseEqual(a, b, s); (BoolOf(r, true), t)
    case Lt => var (r, t) := h.less(a, b, true, s); (Outcome(r, Less), t)
    case Ge => var (r, t) := h.less(a, b, true, s); (Outcome(r, NotLess), t)
    case Gt => var (r, t) := h.less(b, a, false, s); (Outcome(r, Less), t)
    case Le => var (r, t) := h.less(b, a, false, s); (Outcome(r, NotLess), t)
  }

  /** None when the evaluation throws. `&&` and `||` short-circuit, section 13.13.1 of ECMA-262. */
  function Eval<S>(h: Host<S>, frame: Frame, e: Expr, s: S): (Option<Value>, S) {
    match e
    case Atom(op, refs) => h.operation(op, SeeAll(frame, refs), s)
    case Loose(op, refs) => h.operation(op, SeeAll(frame, refs), s)
    case Paren(inner) => Eval(h, frame, inner, s)
    case Not(operand) =>
      var (v, t) := Eval(h, frame, operand, s);
      if v.None? then (None, t) else (Some(Bool(!Truthy(v.value))), t)
    case And(l, r) =>
      var (v, t) := Eval(h, frame, l, s);
      if v.None? || !Truthy(v.value) then (v, t) else Eval(h, frame, r, t)
    case Or(l, r) =>
      var (v, t) := Eval(h, frame, l, s);
      if v.None? || Truthy(v.value) then (v, t) else Eval(h, frame, r, t)
    case Cmp(op, l, r) =>
      var (a, t) := Eval(h, frame, l, s);
      if a.None? then (None, t)
      else
        var (b, u) := Eval(h, frame, r, t);
        if b.None? then (None, u) else Compare(h, op, a.value, b.value, u)
  }

  /** Whether a condition holds, fails or throws. */
  datatype Decision = Holds | Fails | Threw

  function Decide<S>(r: (Option<Value>, S)): (Decision, S) {
    (if r.0.None? then Threw else if Truthy(r.0.value) then Holds else Fails, r.1)
  }

  function Opposite(d: Decision): Decision {
    match d
    case Holds => Fails
    case Fails => Holds
    case Threw => Threw
  }

  /** `if (g1) return; ... if (gn) return;` holds when the statements after it run. */
  function RunGuards<S>(h: Host<S>, frame: Frame, guards: seq<Expr>, s: S): (Decision, S) {
    if guards == [] then (Holds, s)
    else
      var (d, t) := Decide(Eval(h, frame, guards[0], s));
      if d.Fails? then RunGuards(h, frame, guards[1..], t)
      else (Opposite(d), t)
  }
}
