/** Python's `==` and `<` on facts: equality is symmetric, and facts that can be ordered at all obey trichotomy. */
module FactOrder {
  import opened PyText
  import opened Expressions

  lemma {:induction false} PyEqSymmetric(a: Fact, b: Fact)
    ensures PyEq(a, b) ==> PyEq(b, a)
  {
    if PyEq(a, b) {
      match a
      case Items(xs) =>
        forall i | 0 <= i < |xs| ensures PyEq(b.items[i], xs[i]) {
          PyEqSymmetric(xs[i], b.items[i]);
        }
      case Fields(f) =>
        forall k | k in f ensures PyEq(b.fields[k], f[k]) {
          PyEqSymmetric(f[k], b.fields[k]);
        }
      case _ =>
    }
  }

  ghost predicate ExactlyOne(p: bool, q: bool, r: bool) {
    (p || q || r) && !(p && q) && !(p && r) && !(q && r)
  }

  /** Either neither order of two facts can be compared, or exactly one of less, greater and equal holds. */
  ghost predicate Trichotomy(ab: Outcome<bool>, ba: Outcome<bool>, eq: bool) {
    (ab.TypeFault? && ba.TypeFault?) || (ab.Value? && ba.Value? && ExactlyOne(ab.value, ba.value, eq))
  }

  lemma TextTrichotomy(s: string, t: string)
    ensures ExactlyOne(StrLt(s, t), StrLt(t, s), s == t)
  {
    StrLeTotal(s, t);
    if StrLe(s, t) && StrLe(t, s) {
      StrLeAntisymmetric(s, t);
    }
  }

  lemma {:induction false} FactTrichotomy(a: Fact, b: Fact)
    ensures Trichotomy(PyLt(a, b), PyLt(b, a), PyEq(a, b))
    decreases a, 1
  {
    if a.Text? && b.Text? {
      TextTrichotomy(a.s, b.s);
    } else if a.Items? && b.Items? {
      ItemsTrichotomy(a.items, b.items);
    }
  }

  lemma {:induction false} ItemsTrichotomy(xs: seq<Fact>, ys: seq<Fact>)
    ensures Trichotomy(ItemsLt(xs, ys), ItemsLt(ys, xs), PyEq(Items(xs), Items(ys)))
    decreases xs, 0
  {
    if xs != [] && ys != [] {
      PyEqSymmetric(xs[0], ys[0]);
      PyEqSymmetric(ys[0], xs[0]);
      if PyEq(xs[0], ys[0]) {
        ItemsTrichotomy(xs[1..], ys[1..]);
        ItemsEqual(xs, ys);
      } else {
        FactTrichotomy(xs[0], ys[0]);
      }
    }
  }

  lemma ItemsEqual(xs: seq<Fact>, ys: seq<Fact>)
    requires xs != [] && ys != [] && PyEq(xs[0], ys[0])
    ensures PyEq(Items(xs), Items(ys)) <==> PyEq(Items(xs[1..]), Items(ys[1..]))
  {
    if PyEq(Items(xs[1..]), Items(ys[1..])) {
      forall i | 0 <= i < |xs| ensures PyEq(xs[i], ys[i]) {
        assert i == 0 || (xs[i] == xs[1..][i - 1] && ys[i] == ys[1..][i - 1]);
      }
    }
  }

  /** `b < a` is false, and not an error, exactly when `a <= b` is true. */
  lemma NotGreaterIff(a: Fact, b: Fact)
    ensures PyLt(b, a) == Value(false) <==> PyLe(a, b) == Value(true)
  {
    FactTrichotomy(a, b);
  }
}
