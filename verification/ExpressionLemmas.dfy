/** One-level readings of the evaluator, used to read the packages' conditions. */
module ExpressionLemmas {
  import opened Expressions

  /** `name.attr`. */
  function Path(name: string, attr: string): Expr {
    Attribute(Name(name), attr)
  }

  /** `e op constant`. */
  function Test(e: Expr, op: CompareOp, v: Fact): Expr {
    Compare(e, [Comparison(op, Constant(v))])
  }

  /** `e op f`. */
  function Relate(e: Expr, op: CompareOp, f: Expr): Expr {
    Compare(e, [Comparison(op, f)])
  }

  /** An evaluated comparison, as an operand of `and`/`or`. */
  function AsFact(b: Outcome<bool>): Outcome<Fact> {
    match b
    case Value(x) => Value(Boolean(x))
    case TypeFault => TypeFault
    case SyntaxFault => SyntaxFault
  }

  lemma PathValue(name: string, attr: string, ctx: Context)
    ensures Eval(Path(name, attr), ctx) == Value(Field(Lookup(ctx, name), attr))
  {
  }

  /** A single comparison of two evaluated operands. */
  lemma RelateValue(e: Expr, op: CompareOp, f: Expr, ctx: Context, v: Fact, w: Fact)
    requires Eval(e, ctx) == Value(v) && Eval(f, ctx) == Value(w)
    ensures Eval(Relate(e, op, f), ctx) == AsFact(Apply(op, v, w))
  {
    var rest := [Comparison(op, f)];
    assert EvalOperand(rest[0], ctx) == Value(w);
    assert rest[1..] == [];
    assert EvalChain(w, rest[1..], ctx) == Value(Boolean(true));
  }

  lemma TestValue(e: Expr, op: CompareOp, c: Fact, ctx: Context, v: Fact)
    requires Eval(e, ctx) == Value(v)
    ensures Eval(Test(e, op, c), ctx) == AsFact(Apply(op, v, c))
  {
    assert Eval(Constant(c), ctx) == Value(c);
    RelateValue(e, op, Constant(c), ctx, v, c);
  }

  lemma AndStep(e: Expr, es: seq<Expr>, ctx: Context)
    ensures EvalAnd([e] + es, ctx) ==
            match Eval(e, ctx)
            case Value(v) => if Truthy(v) then EvalAnd(es, ctx) else Value(Boolean(false))
            case fault => fault
  {
  }

  lemma OrStep(e: Expr, es: seq<Expr>, ctx: Context)
    ensures EvalOr([e] + es, ctx) ==
            match Eval(e, ctx)
            case Value(v) => if Truthy(v) then Value(Boolean(true)) else EvalOr(es, ctx)
            case fault => fault
  {
  }

  /** A fact equals a text, `None` or `True` in Python's sense only if it is that text, `None`, or `True` or 1. */
  lemma EqualToConstant(v: Fact)
    ensures forall s :: PyEq(v, Text(s)) <==> v == Text(s)
    ensures PyEq(v, Nothing) <==> v == Nothing
    ensures PyEq(v, Boolean(true)) <==> v == Boolean(true) || v == Number(1)
    ensures PyEq(v, Boolean(false)) <==> v == Boolean(false) || v == Number(0)
  {
  }

  lemma {:induction false} AndConcat(es: seq<Expr>, fs: seq<Expr>, ctx: Context)
    ensures EvalAnd(es + fs, ctx) == if EvalAnd(es, ctx) == Value(Boolean(true)) then EvalAnd(fs, ctx) else EvalAnd(es, ctx)
  {
    if es == [] {
      assert es + fs == fs;
    } else {
      assert (es + fs)[1..] == es[1..] + fs;
      AndConcat(es[1..], fs, ctx);
    }
  }

  lemma {:induction false} AndIsBoolean(es: seq<Expr>, ctx: Context)
    ensures EvalAnd(es, ctx).Value? ==> EvalAnd(es, ctx).value.Boolean?
  {
    if es != [] {
      AndIsBoolean(es[1..], ctx);
    }
  }

  ghost predicate AllTrue(bs: seq<Outcome<bool>>) {
    forall i :: 0 <= i < |bs| ==> bs[i] == Value(true)
  }

  lemma AllTrueOfFour(a: Outcome<bool>, b: Outcome<bool>, c: Outcome<bool>, d: Outcome<bool>)
    ensures AllTrue([a, b, c, d]) <==> a == b == c == d == Value(true)
  {
    var all := [a, b, c, d];
    assert all[0] == a && all[1] == b && all[2] == c && all[3] == d;
  }

  lemma AllTrueCons(b: Outcome<bool>, bs: seq<Outcome<bool>>)
    ensures AllTrue([b] + bs) <==> b == Value(true) && AllTrue(bs)
  {
    var all := [b] + bs;
    assert forall i :: 0 <= i < |bs| ==> all[i + 1] == bs[i];
    assert all[0] == b;
  }

  /** A conjunction of comparisons is true exactly when every one of them is, none raising. */
  lemma {:induction false} AndHolds(es: seq<Expr>, bs: seq<Outcome<bool>>, ctx: Context)
    requires |es| == |bs| && forall i :: 0 <= i < |es| ==> Eval(es[i], ctx) == AsFact(bs[i])
    ensures EvalAnd(es, ctx) == Value(Boolean(true)) <==> AllTrue(bs)
  {
    if es != [] {
      AndHolds(es[1..], bs[1..], ctx);
      assert es == [es[0]] + es[1..] && bs == [bs[0]] + bs[1..];
      AndStep(es[0], es[1..], ctx);
      AllTrueCons(bs[0], bs[1..]);
    }
  }
}
