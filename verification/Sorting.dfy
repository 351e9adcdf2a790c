/**
 Stable sorting by a comparison, standing for `sorted(...)` and for SQL `ORDER BY`.

 `Sort` is an insertion sort; what the rest of the model uses is that it is a permutation,
 that it is ordered, that an ordered permutation is unique when the comparison only ties
 equal elements, and that sorting commutes with filtering.
 */
module Sorting {

  ghost predicate Ordered<T>(le: (T, T) -> bool, s: seq<T>) {
    forall i, j :: 0 <= i < j < |s| ==> le(s[i], s[j])
  }

  /** `le` compares any two values one way or the other, consistently. */
  ghost predicate TotalPreorder<T(!new)>(le: (T, T) -> bool) {
    && (forall x, y :: le(x, y) || le(y, x))
    && (forall x, y, z :: le(x, y) && le(y, z) ==> le(x, z))
  }

  /** Among the elements of `s`, only equal ones tie. */
  ghost predicate TiesOnlyEqual<T>(le: (T, T) -> bool, s: seq<T>) {
    forall i, j :: 0 <= i < |s| && 0 <= j < |s| && le(s[i], s[j]) && le(s[j], s[i]) ==> s[i] == s[j]
  }

  function Insert<T>(le: (T, T) -> bool, x: T, s: seq<T>): (r: seq<T>)
    ensures multiset(r) == multiset([x]) + multiset(s)
  {
    if s == [] then [x]
    else if le(x, s[0]) then [x] + s
    else
      assert s == [s[0]] + s[1..];
      [s[0]] + Insert(le, x, s[1..])
  }

  function Sort<T>(le: (T, T) -> bool, s: seq<T>): (r: seq<T>)
    ensures multiset(r) == multiset(s)
    ensures |r| == |s|
  {
    if s == [] then []
    else
      assert s == [s[0]] + s[1..];
      var r := Insert(le, s[0], Sort(le, s[1..]));
      assert |multiset(r)| == |r| && |multiset(s)| == |s|;
      r
  }

  function Filter<T>(p: T -> bool, s: seq<T>): (r: seq<T>)
    ensures |r| <= |s|
  {
    if s == [] then []
    else if p(s[0]) then [s[0]] + Filter(p, s[1..])
    else Filter(p, s[1..])
  }

  lemma {:induction false} FilterMember<T>(p: T -> bool, s: seq<T>, x: T)
    ensures x in Filter(p, s) <==> x in s && p(x)
  {
    if s != [] {
      FilterMember(p, s[1..], x);
      assert x in s <==> x == s[0] || x in s[1..];
    }
  }

  lemma FilterCons<T>(p: T -> bool, x: T, s: seq<T>)
    ensures Filter(p, [x] + s) == if p(x) then [x] + Filter(p, s) else Filter(p, s)
  {
  }

  lemma SameElements<T>(a: seq<T>, b: seq<T>)
    requires multiset(a) == multiset(b)
    ensures |a| == |b|
    ensures forall x :: x in a <==> x in b
  {
    assert |multiset(a)| == |a| && |multiset(b)| == |b|;
    forall x ensures x in a <==> x in b {
      assert x in multiset(a) <==> x in a;
      assert x in multiset(b) <==> x in b;
    }
  }

  lemma {:induction false} InsertOrdered<T(!new)>(le: (T, T) -> bool, x: T, s: seq<T>)
    requires TotalPreorder(le) && Ordered(le, s)
    ensures Ordered(le, Insert(le, x, s))
  {
    if s != [] && !le(x, s[0]) {
      InsertOrdered(le, x, s[1..]);
      var rest := Insert(le, x, s[1..]);
      assert multiset(rest) == multiset([x] + s[1..]);
      SameElements(rest, [x] + s[1..]);
      forall j | 0 <= j < |rest| ensures le(s[0], rest[j]) {
        assert rest[j] in [x] + s[1..];
      }
    } else if s != [] {
      forall j | 0 <= j < |s| ensures le(x, s[j]) {
        assert j == 0 || le(s[0], s[j]);
      }
    }
  }

  lemma {:induction false} SortOrdered<T(!new)>(le: (T, T) -> bool, s: seq<T>)
    requires TotalPreorder(le)
    ensures Ordered(le, Sort(le, s))
  {
    if s != [] {
      SortOrdered(le, s[1..]);
      InsertOrdered(le, s[0], Sort(le, s[1..]));
    }
  }

  lemma HeadsAgree<T>(le: (T, T) -> bool, a: seq<T>, b: seq<T>)
    requires Ordered(le, a) && Ordered(le, b)
    requires multiset(a) == multiset(b)
    requires TiesOnlyEqual(le, a)
    requires a != [] && b != []
    ensures a[0] == b[0]
  {
    SameElements(a, b);
    assert b[0] in a && a[0] in b;
    var i :| 0 <= i < |a| && a[i] == b[0];
    var j :| 0 <= j < |b| && b[j] == a[0];
    assert i == 0 || le(a[0], a[i]);
    assert j == 0 || le(b[0], b[j]);
  }

  lemma TailMultiset<T>(s: seq<T>)
    requires s != []
    ensures multiset(s[1..]) == multiset(s) - multiset{s[0]}
  {
    assert s == [s[0]] + s[1..];
  }

  /** Two ordered arrangements of the same elements are the same arrangement. */
  lemma {:induction false} OrderedUnique<T>(le: (T, T) -> bool, a: seq<T>, b: seq<T>)
    requires Ordered(le, a) && Ordered(le, b)
    requires multiset(a) == multiset(b)
    requires TiesOnlyEqual(le, a)
    ensures a == b
  {
    SameElements(a, b);
    if a != [] {
      HeadsAgree(le, a, b);
      TailMultiset(a);
      TailMultiset(b);
      OrderedUnique(le, a[1..], b[1..]);
      assert a == [a[0]] + a[1..] && b == [b[0]] + b[1..];
    }
  }

  /** The sorted form depends on the elements only, not on the order they arrive in. */
  lemma SortOfPermutation<T(!new)>(le: (T, T) -> bool, a: seq<T>, b: seq<T>)
    requires TotalPreorder(le)
    requires multiset(a) == multiset(b)
    requires TiesOnlyEqual(le, a)
    ensures Sort(le, a) == Sort(le, b)
  {
    SortOrdered(le, a);
    SortOrdered(le, b);
    TiesCarryOver(le, a, Sort(le, a));
    OrderedUnique(le, Sort(le, a), Sort(le, b));
  }

  lemma TiesCarryOver<T>(le: (T, T) -> bool, a: seq<T>, b: seq<T>)
    requires multiset(a) == multiset(b)
    requires TiesOnlyEqual(le, a)
    ensures TiesOnlyEqual(le, b)
  {
    SameElements(a, b);
    forall i, j | 0 <= i < |b| && 0 <= j < |b| && le(b[i], b[j]) && le(b[j], b[i]) ensures b[i] == b[j] {
      assert b[i] in a && b[j] in a;
      var i' :| 0 <= i' < |a| && a[i'] == b[i];
      var j' :| 0 <= j' < |a| && a[j'] == b[j];
    }
  }

  /** A sequence that is already in order is left alone. */
  lemma SortOfOrdered<T(!new)>(le: (T, T) -> bool, s: seq<T>)
    requires TotalPreorder(le)
    requires Ordered(le, s) && TiesOnlyEqual(le, s)
    ensures Sort(le, s) == s
  {
    SortOrdered(le, s);
    OrderedUnique(le, s, Sort(le, s));
  }

  lemma {:induction false} FilterConcat<T>(p: T -> bool, a: seq<T>, b: seq<T>)
    ensures Filter(p, a + b) == Filter(p, a) + Filter(p, b)
  {
    if a == [] {
      assert a + b == b;
    } else {
      assert a + b == [a[0]] + (a[1..] + b);
      FilterCons(p, a[0], a[1..] + b);
      FilterConcat(p, a[1..], b);
    }
  }

  /** Anything at or below the first element goes in front. */
  lemma InsertInFront<T>(le: (T, T) -> bool, x: T, s: seq<T>)
    requires forall y | y in s :: le(x, y)
    ensures Insert(le, x, s) == [x] + s
  {
  }

  lemma {:induction false} FilterInsert<T(!new)>(le: (T, T) -> bool, p: T -> bool, x: T, s: seq<T>)
    requires TotalPreorder(le) && Ordered(le, s)
    ensures Filter(p, Insert(le, x, s)) == if p(x) then Insert(le, x, Filter(p, s)) else Filter(p, s)
  {
    if s == [] {
      FilterCons(p, x, s);
    } else if le(x, s[0]) {
      FilterCons(p, x, s);
      forall y | y in Filter(p, s) ensures le(x, y) {
        FilterMember(p, s, y);
        var i :| 0 <= i < |s| && s[i] == y;
        assert i == 0 || le(s[0], s[i]);
      }
      InsertInFront(le, x, Filter(p, s));
    } else {
      var t := Insert(le, x, s[1..]);
      FilterInsert(le, p, x, s[1..]);
      FilterCons(p, s[0], t);
      FilterCons(p, s[0], s[1..]);
      assert s == [s[0]] + s[1..];
      InsertBehind(le, x, s[0], Filter(p, s[1..]));
    }
  }

  lemma InsertBehind<T>(le: (T, T) -> bool, x: T, head: T, s: seq<T>)
    requires !le(x, head)
    ensures Insert(le, x, [head] + s) == [head] + Insert(le, x, s)
  {
  }

  lemma SortCons<T>(le: (T, T) -> bool, x: T, s: seq<T>)
    ensures Sort(le, [x] + s) == Insert(le, x, Sort(le, s))
  {
  }

  /** Filtering a sorted result gives the sorted filtered result. */
  lemma {:induction false} FilterSort<T(!new)>(le: (T, T) -> bool, p: T -> bool, s: seq<T>)
    requires TotalPreorder(le)
    ensures Filter(p, Sort(le, s)) == Sort(le, Filter(p, s))
  {
    if s != [] {
      FilterSort(le, p, s[1..]);
      SortOrdered(le, s[1..]);
      FilterInsert(le, p, s[0], Sort(le, s[1..]));
      SortCons(le, s[0], Filter(p, s[1..]));
    }
  }

  /** Filtering twice is filtering by both tests. */
  lemma {:induction false} FilterTwice<T>(p: T -> bool, q: T -> bool, both: T -> bool, s: seq<T>)
    requires forall i :: 0 <= i < |s| ==> both(s[i]) == (p(s[i]) && q(s[i]))
    ensures Filter(q, Filter(p, s)) == Filter(both, s)
  {
    if s != [] {
      FilterTwice(p, q, both, s[1..]);
      if p(s[0]) {
        FilterCons(q, s[0], Filter(p, s[1..]));
      }
    }
  }

  lemma {:induction false} FilterCount<T>(p: T -> bool, s: seq<T>, x: T)
    ensures multiset(Filter(p, s))[x] == if p(x) then multiset(s)[x] else 0
  {
    if s != [] {
      FilterCount(p, s[1..], x);
      assert s == [s[0]] + s[1..];
    }
  }

  /** Permuting a sequence permutes what a filter keeps of it. */
  lemma FilterMultiset<T(!new)>(p: T -> bool, a: seq<T>, b: seq<T>)
    requires multiset(a) == multiset(b)
    ensures multiset(Filter(p, a)) == multiset(Filter(p, b))
  {
    forall x ensures multiset(Filter(p, a))[x] == multiset(Filter(p, b))[x] {
      FilterCount(p, a, x);
      FilterCount(p, b, x);
    }
  }

  lemma FilterParts<T>(q: T -> bool, front: seq<T>, x: T, back: seq<T>)
    ensures Filter(q, front + ([x] + back)) == Filter(q, front) + (if q(x) then [x] + Filter(q, back) else Filter(q, back))
  {
    hide Filter;
    FilterConcat(q, front, [x] + back);
    FilterCons(q, x, back);
  }

  lemma Parts<T>(s: seq<T>, k: nat)
    requires k < |s|
    ensures s == s[..k] + ([s[k]] + s[k + 1..])
  {
  }

  lemma {:induction false} FilterSplit<T>(q: T -> bool, s: seq<T>, k: nat)
    requires k < |s|
    ensures Filter(q, s) == Filter(q, s[..k]) + (if q(s[k]) then [s[k]] + Filter(q, s[k + 1..]) else Filter(q, s[k + 1..]))
  {
    hide Filter;
    Parts(s, k);
    FilterParts(q, s[..k], s[k], s[k + 1..]);
  }

  /** Replacing one element, as a filter that keeps it, or no longer does, sees it. */
  lemma FilterReplaced<T>(q: T -> bool, s: seq<T>, k: nat, x: T)
    requires k < |s|
    ensures q(s[k]) && q(x) ==>
            Filter(q, s) == Filter(q, s[..k]) + ([s[k]] + Filter(q, s[k + 1..])) && Filter(q, s[k := x]) == Filter(q, s[..k]) + ([x] + Filter(q, s[k + 1..]))
    ensures !q(s[k]) && !q(x) ==> Filter(q, s[k := x]) == Filter(q, s)
    ensures q(s[k]) && !q(x) ==> |Filter(q, s[k := x])| == |Filter(q, s)| - 1
  {
    hide Filter;
    FilterSplit(q, s, k);
    FilterSplit(q, s[k := x], k);
    assert s[k := x][..k] == s[..k] && s[k := x][k + 1..] == s[k + 1..];
  }
}
