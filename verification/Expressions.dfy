/**
 The restricted expression language of decision conditions (`package_interpreter.py`): an
 evaluator over JSON-like facts with Python's equality, ordering, membership and truth.

 A `TypeError` escapes the evaluator; a missing name, attribute, key or index is `None`.
 Facts have no floats.
 */
module Expressions {
  import opened Wrappers
  import opened PyText

  datatype Fact =
    | Nothing
    | Boolean(b: bool)
    | Number(n: int)
    | Text(s: string)
    | Items(items: seq<Fact>)
    | Fields(fields: map<string, Fact>)

  type Context = map<string, Fact>

  datatype CompareOp = Eq | NotEq | Lt | LtE | Gt | GtE | In | NotIn

  datatype Expr =
    | Name(id: string)
    | Attribute(base: Expr, attr: string)
    | Subscript(base: Expr, key: Expr)
    | Constant(value: Fact)
    | ListDisplay(elts: seq<Expr>)
    | Not(operand: Expr)
    | And(values: seq<Expr>)
    | Or(values: seq<Expr>)
    | Compare(left: Expr, rest: seq<Comparison>)
    | Unsupported

  datatype Comparison = Comparison(op: CompareOp, right: Expr)

  /** An evaluation yields a value, raises `TypeError`, or raises `ExpressionError`. */
  datatype Outcome<+T> = Value(value: T) | TypeFault | SyntaxFault

  // ---------------------------------------------------------------- Python's operators

  /** `bool(v)`. */
  predicate Truthy(v: Fact) {
    match v
    case Nothing => false
    case Boolean(b) => b
    case Number(n) => n != 0
    case Text(s) => s != ""
    case Items(items) => items != []
    case Fields(fields) => fields != map[]
  }

  predicate IsNumeric(v: Fact) {
    v.Number? || v.Boolean?
  }

  /** Booleans are the integers 0 and 1. */
  function NumericValue(v: Fact): int
    requires IsNumeric(v)
  {
    if v.Number? then v.n else if v.b then 1 else 0
  }

  /** `a == b`. */
  predicate PyEq(a: Fact, b: Fact) {
    if IsNumeric(a) && IsNumeric(b) then NumericValue(a) == NumericValue(b)
    else
      match a
      case Items(xs) => b.Items? && |xs| == |b.items| && forall i :: 0 <= i < |xs| ==> PyEq(xs[i], b.items[i])
      case Fields(f) => b.Fields? && f.Keys == b.fields.Keys && forall k :: k in f ==> PyEq(f[k], b.fields[k])
      case _ => a == b
  }

  predicate StrLt(a: string, b: string) {
    a != b && StrLe(a, b)
  }

  /** `a < b`. */
  function PyLt(a: Fact, b: Fact): (r: Outcome<bool>)
    ensures !r.SyntaxFault?
  {
    if IsNumeric(a) && IsNumeric(b) then Value(NumericValue(a) < NumericValue(b))
    else if a.Text? && b.Text? then Value(StrLt(a.s, b.s))
    else if a.Items? && b.Items? then ItemsLt(a.items, b.items)
    else TypeFault
  }

  /** Lists compare at their first difference, or by length. */
  function ItemsLt(xs: seq<Fact>, ys: seq<Fact>): (r: Outcome<bool>)
    ensures !r.SyntaxFault?
  {
    if ys == [] then Value(false)
    else if xs == [] then Value(true)
    else if PyEq(xs[0], ys[0]) then ItemsLt(xs[1..], ys[1..])
    else PyLt(xs[0], ys[0])
  }

  predicate Substring(a: string, b: string) {
    exists i :: 0 <= i <= |b| && a <= b[i..]
  }

  /** `a in b`. */
  function Contains(a: Fact, b: Fact): Outcome<bool> {
    match b
    case Items(items) => Value(exists i :: 0 <= i < |items| && PyEq(items[i], a))
    case Text(s) => if a.Text? then Value(Substring(a.s, s)) else TypeFault
    case Fields(f) => if a.Items? || a.Fields? then TypeFault else Value(a.Text? && a.s in f)
    case _ => TypeFault
  }

  function Negated(r: Outcome<bool>): Outcome<bool> {
    if r.Value? then Value(!r.value) else r
  }

  /** `a <= b` is `a < b or a == b`; lists and scalars alike. */
  function PyLe(a: Fact, b: Fact): Outcome<bool> {
    match PyLt(a, b)
    case Value(lt) => Value(lt || PyEq(a, b))
    case fault => fault
  }

  function Apply(op: CompareOp, a: Fact, b: Fact): Outcome<bool> {
    match op
    case Eq => Value(PyEq(a, b))
    case NotEq => Value(!PyEq(a, b))
    case Lt => PyLt(a, b)
    case LtE => PyLe(a, b)
    case Gt => PyLt(b, a)
    case GtE => PyLe(b, a)
    case In => Contains(a, b)
    case NotIn => Negated(Contains(a, b))
  }

  /** A field of a mapping; `None` when there is no mapping or no such field. */
  function Field(v: Fact, name: string): Fact {
    if v.Fields? && name in v.fields then v.fields[name] else Nothing
  }

  /** `base[key]`, `None` in place of `KeyError`, `IndexError` and `TypeError`. */
  function Subscripted(base: Fact, key: Fact): Fact {
    match base
    case Fields(f) => if key.Text? && key.s in f then f[key.s] else Nothing
    case Items(items) =>
      if IsNumeric(key) && 0 <= NumericValue(key) < |items| then items[NumericValue(key)]
      else if IsNumeric(key) && -|items| <= NumericValue(key) < 0 then items[|items| + NumericValue(key)]
      else Nothing
    case Text(s) =>
      if IsNumeric(key) && 0 <= NumericValue(key) < |s| then Text([s[NumericValue(key)]])
      else if IsNumeric(key) && -|s| <= NumericValue(key) < 0 then Text([s[|s| + NumericValue(key)]])
      else Nothing
    case _ => Nothing
  }

  function Lookup(ctx: Context, id: string): Fact {
    if id in ctx then ctx[id] else Nothing
  }

  // ---------------------------------------------------------------- the evaluator

  /** `_eval_node`. */
  function Eval(e: Expr, ctx: Context): Outcome<Fact>
    decreases e, 1
  {
    match e
    case Name(id) => Value(Lookup(ctx, id))
    case Attribute(base, attr) =>
      (match Eval(base, ctx)
       case Value(v) => Value(Field(v, attr))
       case fault => fault)
    case Subscript(base, key) =>
      (match Eval(base, ctx)
       case Value(v) =>
         (match Eval(key, ctx)
          case Value(k) => Value(Subscripted(v, k))
          case fault => fault)
       case fault => fault)
    case Constant(v) => Value(v)
    case ListDisplay(elts) =>
      (match EvalList(elts, ctx)
       case Value(vs) => Value(Items(vs))
       case TypeFault => TypeFault
       case SyntaxFault => SyntaxFault)
    case Not(operand) =>
      (match Eval(operand, ctx)
       case Value(v) => Value(Boolean(!Truthy(v)))
       case fault => fault)
    case And(values) => EvalAnd(values, ctx)
    case Or(values) => EvalOr(values, ctx)
    case Compare(left, rest) =>
      (match Eval(left, ctx)
       case Value(v) => EvalChain(v, rest, ctx)
       case fault => fault)
    case Unsupported => SyntaxFault
  }

  function EvalList(elts: seq<Expr>, ctx: Context): Outcome<seq<Fact>>
    decreases elts, 0
  {
    if elts == [] then Value([])
    else
      match Eval(elts[0], ctx)
      case TypeFault => TypeFault
      case SyntaxFault => SyntaxFault
      case Value(v) =>
        match EvalList(elts[1..], ctx)
        case Value(vs) => Value([v] + vs)
        case fault => fault
  }

  /** Short-circuits at the first operand that is not true. */
  function EvalAnd(values: seq<Expr>, ctx: Context): Outcome<Fact>
    decreases values, 0
  {
    if values == [] then Value(Boolean(true))
    else
      match Eval(values[0], ctx)
      case Value(v) => if Truthy(v) then EvalAnd(values[1..], ctx) else Value(Boolean(false))
      case fault => fault
  }

  /** Short-circuits at the first operand that is true. */
  function EvalOr(values: seq<Expr>, ctx: Context): Outcome<Fact>
    decreases values, 0
  {
    if values == [] then Value(Boolean(false))
    else
      match Eval(values[0], ctx)
      case Value(v) => if Truthy(v) then Value(Boolean(true)) else EvalOr(values[1..], ctx)
      case fault => fault
  }

  /** A chained comparison, left to right, stopping at the first that fails. */
  function EvalChain(left: Fact, rest: seq<Comparison>, ctx: Context): Outcome<Fact>
    decreases rest, 0
  {
    if rest == [] then Value(Boolean(true))
    else
      match EvalOperand(rest[0], ctx)
      case Value(right) =>
        (match Apply(rest[0].op, left, right)
         case Value(holds) => if holds then EvalChain(right, rest[1..], ctx) else Value(Boolean(false))
         case TypeFault => TypeFault
         case SyntaxFault => SyntaxFault)
      case fault => fault
  }

  function EvalOperand(c: Comparison, ctx: Context): Outcome<Fact>
    decreases c, 2
  {
    Eval(c.right, ctx)
  }

  /** `bool(evaluate_expression(...))`, a malformed expression counting as false. */
  function Matched(e: Expr, ctx: Context): Outcome<bool> {
    match Eval(e, ctx)
    case Value(v) => Value(Truthy(v))
    case SyntaxFault => Value(false)
    case TypeFault => TypeFault
  }
}
