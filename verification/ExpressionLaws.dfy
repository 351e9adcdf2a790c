/** Laws of the condition language that hold for every expression: chains, negation, truth, order and subscripts. */
module ExpressionLaws {
  import opened PyText
  import opened Expressions
  import opened ExpressionLemmas
  import opened FactOrder

  // ---------------------------------------------------------------- chained comparisons

  /** `a < b < c` as `a < b` and `b < c`. */
  function Pairs(left: Expr, rest: seq<Comparison>): seq<Expr>
    decreases |rest|
  {
    if rest == [] then [] else [Compare(left, [rest[0]])] + Pairs(rest[0].right, rest[1..])
  }

  lemma PairReading(left: Expr, c: Comparison, ctx: Context, v: Fact)
    requires Eval(left, ctx) == Value(v)
    ensures Eval(Compare(left, [c]), ctx) ==
            match Eval(c.right, ctx)
            case Value(w) => AsFact(Apply(c.op, v, w))
            case fault => fault
  {
    var rest := [c];
    assert EvalOperand(rest[0], ctx) == Eval(c.right, ctx);
    if Eval(c.right, ctx).Value? {
      RelateValue(left, c.op, c.right, ctx, v, Eval(c.right, ctx).value);
      assert Compare(left, rest) == Relate(left, c.op, c.right);
    }
  }

  lemma {:induction false} ChainReading(left: Expr, rest: seq<Comparison>, ctx: Context, v: Fact)
    requires Eval(left, ctx) == Value(v)
    ensures EvalChain(v, rest, ctx) == EvalAnd(Pairs(left, rest), ctx)
    decreases |rest|
  {
    if rest != [] {
      PairReading(left, rest[0], ctx, v);
      AndStep(Compare(left, [rest[0]]), Pairs(rest[0].right, rest[1..]), ctx);
      assert EvalOperand(rest[0], ctx) == Eval(rest[0].right, ctx);
      if Eval(rest[0].right, ctx).Value? {
        ChainReading(rest[0].right, rest[1..], ctx, Eval(rest[0].right, ctx).value);
      }
    }
  }

  /** A chained comparison means the conjunction of its neighbouring pairs, errors and short-circuits included. */
  lemma ChainIsConjunction(left: Expr, rest: seq<Comparison>, ctx: Context)
    requires rest != []
    ensures Eval(Compare(left, rest), ctx) == Eval(And(Pairs(left, rest)), ctx)
  {
    if Eval(left, ctx).Value? {
      ChainReading(left, rest, ctx, Eval(left, ctx).value);
    } else {
      AndStep(Compare(left, [rest[0]]), Pairs(rest[0].right, rest[1..]), ctx);
    }
  }

  // ---------------------------------------------------------------- negation

  function Negations(es: seq<Expr>): seq<Expr> {
    if es == [] then [] else [Not(es[0])] + Negations(es[1..])
  }

  /** The truth of a result, the error kept. */
  function Truth(v: Outcome<Fact>): Outcome<bool> {
    match v
    case Value(x) => Value(Truthy(x))
    case TypeFault => TypeFault
    case SyntaxFault => SyntaxFault
  }

  lemma NotReading(e: Expr, ctx: Context)
    ensures Truth(Eval(Not(e), ctx)) == Negated(Truth(Eval(e, ctx)))
  {
  }

  lemma {:induction false} NegatedAnd(es: seq<Expr>, ctx: Context)
    ensures Negated(Truth(EvalAnd(es, ctx))) == Truth(EvalOr(Negations(es), ctx))
  {
    if es != [] {
      NegatedAnd(es[1..], ctx);
      NotReading(es[0], ctx);
      OrStep(Not(es[0]), Negations(es[1..]), ctx);
    }
  }

  /** De Morgan, short-circuits and errors included. */
  lemma NotAndIsOrNot(es: seq<Expr>, ctx: Context)
    ensures Truth(Eval(Not(And(es)), ctx)) == Truth(Eval(Or(Negations(es)), ctx))
  {
    NotReading(And(es), ctx);
    NegatedAnd(es, ctx);
  }

  // ---------------------------------------------------------------- truth, equality and order of facts

  /** Exactly six facts are false. */
  lemma FalseFacts(v: Fact)
    ensures !Truthy(v) <==> v in {Nothing, Boolean(false), Number(0), Text(""), Items([]), Fields(map[])}
  {
  }

  lemma {:induction false} EqualToItself(v: Fact)
    ensures PyEq(v, v)
  {
    match v
    case Items(xs) =>
      forall i | 0 <= i < |xs| ensures PyEq(xs[i], xs[i]) {
        EqualToItself(xs[i]);
      }
    case Fields(f) =>
      forall k | k in f ensures PyEq(f[k], f[k]) {
        EqualToItself(f[k]);
      }
    case _ =>
  }

  /** `True` is 1 and `False` is 0, in equality and in order; other scalars equal only themselves. */
  lemma ScalarsCompare(a: int, b: int, p: bool, s: string, t: string)
    ensures PyEq(Number(a), Number(b)) <==> a == b
    ensures PyEq(Boolean(p), Number(a)) <==> a == if p then 1 else 0
    ensures PyEq(Text(s), Text(t)) <==> s == t
    ensures !PyEq(Text(s), Number(a)) && !PyEq(Nothing, Number(a)) && !PyEq(Nothing, Boolean(p)) && !PyEq(Nothing, Text(s))
    ensures PyLt(Number(a), Number(b)) == Value(a < b)
    ensures PyLt(Boolean(p), Number(a)) == Value((if p then 1 else 0) < a)
    ensures PyLt(Text(s), Number(a)) == TypeFault && PyLt(Nothing, Number(a)) == TypeFault && PyLt(Nothing, Nothing) == TypeFault
  {
  }

  /** Texts are ordered by code point. */
  lemma TextsCompare(s: string, t: string)
    ensures PyLt(Text(s), Text(t)) == Value(Precedes(s, t))
  {
    StrLeMeaning(s, t);
    PrecedesIrreflexive(s);
    hide StrLe, Precedes;
  }

  /** Lists compare where they first differ. */
  lemma {:induction false} ListsCompareAt(xs: seq<Fact>, ys: seq<Fact>, k: nat)
    requires k < |xs| && k < |ys| && !PyEq(xs[k], ys[k]) && forall i :: 0 <= i < k ==> PyEq(xs[i], ys[i])
    ensures PyLt(Items(xs), Items(ys)) == PyLt(xs[k], ys[k])
  {
    if k > 0 {
      assert PyEq(xs[0], ys[0]);
      assert forall i :: 0 <= i < k - 1 ==> xs[1..][i] == xs[i + 1] && ys[1..][i] == ys[i + 1];
      ListsCompareAt(xs[1..], ys[1..], k - 1);
      assert PyLt(Items(xs[1..]), Items(ys[1..])) == ItemsLt(xs[1..], ys[1..]);
    }
  }

  /** Without a difference the shorter list is the smaller. */
  lemma {:induction false} ListsCompareByLength(xs: seq<Fact>, ys: seq<Fact>)
    requires forall i :: 0 <= i < |xs| && i < |ys| ==> PyEq(xs[i], ys[i])
    ensures PyLt(Items(xs), Items(ys)) == Value(|xs| < |ys|)
  {
    if xs != [] && ys != [] {
      assert PyEq(xs[0], ys[0]);
      assert forall i :: 0 <= i < |xs| - 1 && i < |ys| - 1 ==> xs[1..][i] == xs[i + 1] && ys[1..][i] == ys[i + 1];
      ListsCompareByLength(xs[1..], ys[1..]);
      assert PyLt(Items(xs[1..]), Items(ys[1..])) == ItemsLt(xs[1..], ys[1..]);
    }
  }

  // ---------------------------------------------------------------- subscripts and membership

  /** A list subscript counts from the front, or from the back when negative, and gives `None` outside. */
  lemma ListSubscript(xs: seq<Fact>, i: int)
    ensures Subscripted(Items(xs), Number(i)) ==
            if 0 <= i < |xs| then xs[i] else if 0 <= i + |xs| < |xs| then xs[i + |xs|] else Nothing
  {
  }

  /** Membership in a mapping is membership among its keys, and an error for anything unhashable. */
  lemma MappingMembership(f: map<string, Fact>, s: string, xs: seq<Fact>)
    ensures Contains(Text(s), Fields(f)) == Value(s in f.Keys)
    ensures Contains(Items(xs), Fields(f)) == TypeFault && Contains(Nothing, Fields(f)) == Value(false)
  {
  }

  ghost predicate Parts(t: string, pre: string, s: string, post: string) {
    t == pre + s + post
  }

  /** Membership in a text is being a part of it. */
  lemma TextMembership(s: string, t: string)
    ensures Contains(Text(s), Text(t)) == Value(exists pre, post :: Parts(t, pre, s, post))
  {
    if i :| 0 <= i <= |t| && s <= t[i..] {
      assert t[i..] == s + t[i..][|s|..] && t == t[..i] + t[i..];
      assert Parts(t, t[..i], s, t[i..][|s|..]);
    }
    if pre, post :| Parts(t, pre, s, post) {
      assert t[|pre|..] == s + post;
      assert s <= t[|pre|..];
    }
  }
}
