/** Reading a listing page by page, when the database may order ties differently on each request. */
module TenantPaging {
  import opened Wrappers
  import opened Sorting
  import opened Organizations
  import opened Tenant

  // ---------------------------------------------------------------- pages of arrangements

  /** Consecutive pages of one size, the k-th cut from the arrangement that request happened to see. */
  function Pages(arrangements: seq<seq<Row>>, size: nat): seq<Row> {
    if arrangements == [] then []
    else
      var k := |arrangements| - 1;
      Pages(arrangements[..k], size) + Page(arrangements[k], k * size, Some(size))
  }

  /** In creation order, no two rows with equal creation times fall on either side of a page boundary. */
  ghost predicate NoTieAcrossPages(sorted: seq<Row>, size: nat) {
    forall k :: 0 < k * size < |sorted| ==> BoundaryStrict(sorted, k * size)
  }

  predicate BoundaryStrict(sorted: seq<Row>, m: nat)
    requires 0 < m < |sorted|
  {
    sorted[m - 1].createdAt < sorted[m].createdAt
  }

  ghost predicate AllArrangements(arrangements: seq<seq<Row>>, rows: seq<Row>) {
    forall k :: 0 <= k < |arrangements| ==> Arrangement(arrangements[k], rows, CreatedAscending)
  }

  function CreatedBy(t: int): Row -> bool {
    (r: Row) => r.createdAt <= t
  }

  /** Rows created by a given time come first in any arrangement. */
  lemma {:induction false} EarlierRowsFirst(o: seq<Row>, t: int)
    requires Ordered(CreatedLe, o)
    ensures Filter(CreatedBy(t), o) <= o
    ensures forall i :: |Filter(CreatedBy(t), o)| <= i < |o| ==> o[i].createdAt > t
  {
    if o != [] {
      assert Ordered(CreatedLe, o[1..]);
      EarlierRowsFirst(o[1..], t);
      var f := Filter(CreatedBy(t), o[1..]);
      if o[0].createdAt <= t {
        assert o == [o[0]] + o[1..];
        forall i | |f| + 1 <= i < |o| ensures o[i].createdAt > t {
          assert o[i] == o[1..][i - 1];
        }
      } else {
        forall i | 0 <= i < |o| ensures o[i].createdAt > t {
          assert i == 0 || CreatedLe(o[0], o[i]);
        }
        if f != [] {
          FilterMember(CreatedBy(t), o[1..], f[0]);
        }
      }
    }
  }

  lemma {:induction false} PrefixFilter(o: seq<Row>, t: int, m: nat)
    requires Ordered(CreatedLe, o) && m <= |o|
    requires forall i :: 0 <= i < m ==> o[i].createdAt <= t
    requires forall i :: m <= i < |o| ==> o[i].createdAt > t
    ensures Filter(CreatedBy(t), o) == o[..m]
  {
    EarlierRowsFirst(o, t);
    var f := Filter(CreatedBy(t), o);
    assert |f| < |o| ==> o[|f|].createdAt > t;
    if m < |f| {
      FilterMember(CreatedBy(t), o, f[m]);
    }
    assert |f| == m;
  }

  /** At a boundary without a tie, every arrangement has the same rows before it. */
  lemma BoundaryAgrees(o: seq<Row>, r: seq<Row>, rows: seq<Row>, m: nat)
    requires Arrangement(o, rows, CreatedAscending) && Arrangement(r, rows, CreatedAscending)
    requires m <= |r| && (0 < m < |r| ==> BoundaryStrict(r, m))
    ensures |o| == |r| && multiset(o[..m]) == multiset(r[..m])
  {
    SameElements(o, r);
    if m == |r| {
      assert o[..m] == o && r[..m] == r;
    } else if m > 0 {
      var t := r[m - 1].createdAt;
      forall i | 0 <= i < m ensures r[i].createdAt <= t {
        assert i == m - 1 || CreatedLe(r[i], r[m - 1]);
      }
      forall i | m <= i < |r| ensures r[i].createdAt > t {
        assert i == m || CreatedLe(r[m], r[i]);
      }
      PrefixFilter(r, t, m);
      FilterMultiset(CreatedBy(t), o, r);
      SameElements(Filter(CreatedBy(t), o), Filter(CreatedBy(t), r));
      EarlierRowsFirst(o, t);
      assert Filter(CreatedBy(t), o) == o[..m];
    }
  }

  function Bound(k: nat, size: nat, n: nat): nat {
    if k * size <= n then k * size else n
  }

  lemma PageIsSlice(s: seq<Row>, k: nat, size: nat)
    ensures Bound(k, size, |s|) <= Bound(k + 1, size, |s|) <= |s|
    ensures Page(s, k * size, Some(size)) == s[Bound(k, size, |s|)..Bound(k + 1, size, |s|)]
  {
  }

  lemma BoundaryOfPage(o: seq<Row>, r: seq<Row>, rows: seq<Row>, size: nat, k: nat)
    requires Arrangement(o, rows, CreatedAscending) && Arrangement(r, rows, CreatedAscending)
    requires size > 0 && NoTieAcrossPages(r, size)
    ensures |o| == |r| && multiset(o[..Bound(k, size, |r|)]) == multiset(r[..Bound(k, size, |r|)])
  {
    var m := Bound(k, size, |r|);
    SameElements(o, r);
    assert 0 < m < |r| ==> BoundaryStrict(r, k * size);
    BoundaryAgrees(o, r, rows, m);
  }

  /** Between two boundaries without ties, every arrangement has the same rows. */
  lemma PageAgrees(o: seq<Row>, r: seq<Row>, rows: seq<Row>, size: nat, k: nat)
    requires Arrangement(o, rows, CreatedAscending) && Arrangement(r, rows, CreatedAscending)
    requires size > 0 && NoTieAcrossPages(r, size)
    ensures Bound(k, size, |r|) <= Bound(k + 1, size, |r|) <= |r|
    ensures multiset(Page(o, k * size, Some(size))) == multiset(r[Bound(k, size, |r|)..Bound(k + 1, size, |r|)])
  {
    BoundaryOfPage(o, r, rows, size, k);
    BoundaryOfPage(o, r, rows, size, k + 1);
    PageIsSlice(o, k, size);
    MultisetOfSlice(o, Bound(k, size, |r|), Bound(k + 1, size, |r|));
    MultisetOfSlice(r, Bound(k, size, |r|), Bound(k + 1, size, |r|));
  }

  lemma MultisetOfSlice(s: seq<Row>, m: nat, m': nat)
    requires m <= m' <= |s|
    ensures multiset(s[m..m']) == multiset(s[..m']) - multiset(s[..m])
  {
    assert s[..m'] == s[..m] + s[m..m'];
  }

  /** Without ties across boundaries, the pages so far hold exactly the first rows. */
  lemma {:induction false} PagesCover(arrangements: seq<seq<Row>>, r: seq<Row>, rows: seq<Row>, size: nat)
    requires AllArrangements(arrangements, rows) && Arrangement(r, rows, CreatedAscending)
    requires size > 0 && NoTieAcrossPages(r, size)
    ensures multiset(Pages(arrangements, size)) == multiset(r[..Bound(|arrangements|, size, |r|)])
  {
    if arrangements != [] {
      var k := |arrangements| - 1;
      PagesCover(arrangements[..k], r, rows, size);
      PageAgrees(arrangements[k], r, rows, size, k);
      assert r[..Bound(k + 1, size, |r|)] == r[..Bound(k, size, |r|)] + r[Bound(k, size, |r|)..Bound(k + 1, size, |r|)];
    }
  }

  /** Pages cut from one and the same arrangement join up to its prefix. */
  lemma {:induction false} PagesOfOne(arrangements: seq<seq<Row>>, o: seq<Row>, size: nat)
    requires forall k :: 0 <= k < |arrangements| ==> arrangements[k] == o
    ensures Pages(arrangements, size) == o[..Bound(|arrangements|, size, |o|)]
  {
    hide Page;
    if arrangements != [] {
      var k := |arrangements| - 1;
      PagesOfOne(arrangements[..k], o, size);
      PageIsSlice(o, k, size);
      assert o[..Bound(k + 1, size, |o|)] == o[..Bound(k, size, |o|)] + o[Bound(k, size, |o|)..Bound(k + 1, size, |o|)];
    }
  }

  /** Two neighbouring rows created at the same time may come in either order. */
  lemma SwapTied(r: seq<Row>, rows: seq<Row>, m: nat)
    requires Arrangement(r, rows, CreatedAscending) && 0 < m < |r| && r[m - 1].createdAt == r[m].createdAt
    ensures Arrangement(r[m - 1 := r[m]][m := r[m - 1]], rows, CreatedAscending)
  {
  }

  /** Requests that see one order up to a boundary and another order after it. */
  lemma {:induction false} PagesOfTwo(a: seq<seq<Row>>, r: seq<Row>, o: seq<Row>, size: nat, k: nat)
    requires |r| == |o| && k <= |a|
    requires forall i :: 0 <= i < |a| ==> a[i] == if i < k then r else o
    ensures Bound(k, size, |r|) <= Bound(|a|, size, |r|) <= |o|
    ensures Pages(a, size) == r[..Bound(k, size, |r|)] + o[Bound(k, size, |r|)..Bound(|a|, size, |r|)]
  {
    hide Page;
    var n := |a|;
    BoundGrows(k, n, size, |r|);
    if n == k {
      PagesOfOne(a, r, size);
    } else {
      PagesOfTwo(a[..n - 1], r, o, size, k);
      PageIsSlice(o, n - 1, size);
      JoinSlices(o, Bound(k, size, |r|), Bound(n - 1, size, |r|), Bound(n, size, |r|));
    }
  }

  lemma JoinSlices(o: seq<Row>, b: nat, c: nat, d: nat)
    requires b <= c <= d <= |o|
    ensures o[b..c] + o[c..d] == o[b..d]
  {
  }

  lemma BoundGrows(k: nat, n: nat, size: nat, len: nat)
    requires k <= n
    ensures Bound(k, size, len) <= Bound(n, size, len) <= len
  {
  }

  /** Whatever orders the requests see, their pages hold every row once. */
  ghost predicate ArrangementsCover(rows: seq<Row>, size: nat, n: nat) {
    forall a :: |a| == n && AllArrangements(a, rows) ==> multiset(Pages(a, size)) == multiset(rows)
  }

  /** The swapped row is lost. */
  lemma SwappedRowLost(r: seq<Row>, m: nat)
    requires UniqueIds(r) && 0 < m < |r|
    ensures r[m] !in r[..m] + r[m - 1 := r[m]][m := r[m - 1]][m..]
  {
  }

  /** There are requests of which the first k see one order and the rest another. */
  lemma {:induction false} TwoOrders(rows: seq<Row>, r: seq<Row>, o: seq<Row>, size: nat, k: nat, n: nat) returns (a: seq<seq<Row>>)
    requires Arrangement(r, rows, CreatedAscending) && Arrangement(o, rows, CreatedAscending)
    requires n * size >= |r| >= k * size && k < n
    ensures |a| == n && AllArrangements(a, rows)
    ensures |r| == |o| && Pages(a, size) == r[..k * size] + o[k * size..]
  {
    SameElements(r, o);
    a := seq(n, i requires 0 <= i < n => if i < k then r else o);
    PagesOfTwo(a, r, o, size, k);
    assert o[k * size..|r|] == o[k * size..];
  }

  lemma TieBreaksPaging(rows: seq<Row>, r: seq<Row>, size: nat, k: nat, n: nat)
    requires Arrangement(r, rows, CreatedAscending) && UniqueIds(r)
    requires size > 0 && n * size >= |r|
    requires 0 < k * size < |r| && !BoundaryStrict(r, k * size)
    ensures !ArrangementsCover(rows, size, n)
  {
    var m := k * size;
    assert CreatedLe(r[m - 1], r[m]);
    if n <= k {
      BoundGrows(n, k, size, |r|);
    }
    SwapTied(r, rows, m);
    var a := TwoOrders(rows, r, r[m - 1 := r[m]][m := r[m - 1]], size, k, n);
    SwappedRowLost(r, m);
    if multiset(Pages(a, size)) == multiset(rows) {
      SameElements(Pages(a, size), r);
    }
  }

  lemma CoverIff(rows: seq<Row>, r: seq<Row>, size: nat, n: nat)
    requires Arrangement(r, rows, CreatedAscending) && UniqueIds(r)
    requires size > 0 && n * size >= |r|
    ensures ArrangementsCover(rows, size, n) <==> NoTieAcrossPages(r, size)
  {
    hide Pages;
    if NoTieAcrossPages(r, size) {
      forall a | |a| == n && AllArrangements(a, rows) ensures multiset(Pages(a, size)) == multiset(rows) {
        PagesCover(a, r, rows, size);
        assert r[..|r|] == r;
      }
    } else {
      var k :| 0 < k * size < |r| && !BoundaryStrict(r, k * size);
      TieBreaksPaging(rows, r, size, k, n);
    }
  }

  // ---------------------------------------------------------------- what the requests are answered

  /** The tenant's rows that pass the filters; all of them, for `list`. */
  function Matching(store: Store, org: string, tests: seq<Test>): seq<Row> {
    Filter(PassesAll(tests), Scoped(store, org))
  }

  /** What consecutive requests of one size are answered, one page each. */
  ghost predicate PageAnswers(store: Store, org: string, tests: seq<Test>, size: nat, answers: seq<seq<Row>>) {
    forall k :: 0 <= k < |answers| ==> Answers(store, org, ListFiltered(tests, k * size, size), Ok(answers[k]))
  }

  function Joined(answers: seq<seq<Row>>): seq<Row> {
    if answers == [] then [] else Joined(answers[..|answers| - 1]) + answers[|answers| - 1]
  }

  /** However the database orders ties on each request, `n` pages hold every matching row once. */
  ghost predicate PagingComplete(store: Store, org: string, tests: seq<Test>, size: nat, n: nat) {
    forall answers :: |answers| == n && PageAnswers(store, org, tests, size, answers) ==>
      multiset(Joined(answers)) == multiset(Matching(store, org, tests))
  }

  /** Behind every answered request there is an arrangement that the page was cut from. */
  lemma {:induction false} AnswersArePages(store: Store, org: string, tests: seq<Test>, size: nat, answers: seq<seq<Row>>) returns (a: seq<seq<Row>>)
    requires Refusal(store.organizations, org).None? && PageAnswers(store, org, tests, size, answers)
    ensures |a| == |answers| && AllArrangements(a, Matching(store, org, tests)) && Pages(a, size) == Joined(answers)
  {
    hide Answers, Page, Arrangement, Matching;
    if answers == [] {
      a := [];
    } else {
      var k := |answers| - 1;
      var earlier := AnswersArePages(store, org, tests, size, answers[..k]);
      var full := PageBehind(store, org, tests, k * size, size, answers[k]);
      a := earlier + [full];
      assert a[..k] == earlier;
    }
  }

  lemma PageBehind(store: Store, org: string, tests: seq<Test>, skip: nat, limit: nat, out: seq<Row>) returns (full: seq<Row>)
    requires Refusal(store.organizations, org).None? && Answers(store, org, ListFiltered(tests, skip, limit), Ok(out))
    ensures Arrangement(full, Matching(store, org, tests), CreatedAscending) && out == Page(full, skip, Some(limit))
  {
    full :| Arrangement(full, Matching(store, org, tests), CreatedAscending) && out == Page(full, skip, Some(limit));
  }

  /** Any arrangements may be what the requests see. */
  lemma {:induction false} PagesAreAnswers(store: Store, org: string, tests: seq<Test>, size: nat, a: seq<seq<Row>>) returns (answers: seq<seq<Row>>)
    requires Refusal(store.organizations, org).None? && AllArrangements(a, Matching(store, org, tests))
    ensures |answers| == |a| && PageAnswers(store, org, tests, size, answers) && Joined(answers) == Pages(a, size)
  {
    hide Answers, Page, Arrangement, Matching;
    if a == [] {
      answers := [];
    } else {
      var k := |a| - 1;
      var earlier := PagesAreAnswers(store, org, tests, size, a[..k]);
      var out := Page(a[k], k * size, Some(size));
      PageIsAnswer(store, org, tests, k * size, size, a[k]);
      answers := earlier + [out];
      forall i | 0 <= i < |answers| ensures Answers(store, org, ListFiltered(tests, i * size, size), Ok(answers[i])) {
        if i < k {
          assert answers[i] == earlier[i];
        }
      }
      assert answers[..k] == earlier;
    }
  }

  lemma PageIsAnswer(store: Store, org: string, tests: seq<Test>, skip: nat, limit: nat, full: seq<Row>)
    requires Refusal(store.organizations, org).None? && Arrangement(full, Matching(store, org, tests), CreatedAscending)
    ensures Answers(store, org, ListFiltered(tests, skip, limit), Ok(Page(full, skip, Some(limit))))
  {
  }

  lemma PagingIsCovering(store: Store, org: string, tests: seq<Test>, size: nat, n: nat)
    requires Refusal(store.organizations, org).None?
    ensures PagingComplete(store, org, tests, size, n) <==> ArrangementsCover(Matching(store, org, tests), size, n)
  {
    hide Matching, PageAnswers, AllArrangements, Pages, Joined;
    if ArrangementsCover(Matching(store, org, tests), size, n) {
      forall answers | |answers| == n && PageAnswers(store, org, tests, size, answers)
        ensures multiset(Joined(answers)) == multiset(Matching(store, org, tests))
      {
        var a := AnswersArePages(store, org, tests, size, answers);
      }
    }
    if PagingComplete(store, org, tests, size, n) {
      forall a | |a| == n && AllArrangements(a, Matching(store, org, tests))
        ensures multiset(Pages(a, size)) == multiset(Matching(store, org, tests))
      {
        var answers := PagesAreAnswers(store, org, tests, size, a);
      }
    }
  }

  /** Selecting rows and rearranging them repeats no identifier. */
  lemma ArrangementUnique(store: Store, org: string, tests: seq<Test>, r: seq<Row>)
    requires UniqueIds(store.rows) && multiset(r) == multiset(Matching(store, org, tests))
    ensures UniqueIds(r)
  {
    forall i, j | 0 <= i < j < |r| ensures r[i].id != r[j].id {
      var x := r[i];
      KeptTwice(store, org, tests, x);
      SameElements(r, Matching(store, org, tests));
      KeptMeaning(store, org, tests, x);
      KeptMeaning(store, org, tests, r[j]);
      if r[j] == x {
        TwoOccurrences(r, i, j);
      }
    }
  }

  lemma TwoOccurrences(r: seq<Row>, i: nat, j: nat)
    requires i < j < |r| && r[i] == r[j]
    ensures multiset(r)[r[i]] >= 2
  {
    assert r == r[..j] + ([r[j]] + r[j + 1..]);
    assert r[..j][i] == r[i];
  }

  lemma KeptTwice(store: Store, org: string, tests: seq<Test>, x: Row)
    requires UniqueIds(store.rows)
    ensures multiset(Matching(store, org, tests))[x] <= 1
  {
    FilterCount(PassesAll(tests), Scoped(store, org), x);
    FilterCount(Own(org), store.rows, x);
    OccursOnce(store.rows, x);
  }

  lemma {:induction false} OccursOnce(rows: seq<Row>, x: Row)
    requires UniqueIds(rows)
    ensures multiset(rows)[x] <= 1
  {
    if rows != [] {
      OccursOnce(rows[1..], x);
      assert rows == [rows[0]] + rows[1..];
      assert rows[0] !in rows[1..];
    }
  }

  /**
   Exactly when consecutive pages of a listing always join up to all matching rows: when no two rows
   created at the same instant straddle a page boundary. `r` is the listing in one allowed order.
   */
  lemma PagingCompleteIff(store: Store, org: string, tests: seq<Test>, r: seq<Row>, size: nat, n: nat)
    requires Refusal(store.organizations, org).None? && UniqueIds(store.rows)
    requires Arrangement(r, Matching(store, org, tests), CreatedAscending)
    requires size > 0 && n * size >= |r|
    ensures PagingComplete(store, org, tests, size, n) <==> NoTieAcrossPages(r, size)
  {
    ArrangementUnique(store, org, tests, r);
    CoverIff(Matching(store, org, tests), r, size, n);
    PagingIsCovering(store, org, tests, size, n);
  }

  ghost predicate DistinctTimes(rows: seq<Row>) {
    forall i, j :: 0 <= i < j < |rows| ==> rows[i].createdAt != rows[j].createdAt
  }

  /** With distinct creation times, whatever consecutive requests are answered joins up to the whole listing, in its order. */
  lemma PagesJoinInOrder(store: Store, org: string, tests: seq<Test>, r: seq<Row>, size: nat, answers: seq<seq<Row>>)
    requires Refusal(store.organizations, org).None? && PageAnswers(store, org, tests, size, answers)
    requires Arrangement(r, Matching(store, org, tests), CreatedAscending) && DistinctTimes(r)
    requires |answers| * size >= |r|
    ensures Joined(answers) == r
  {
    hide Pages, Matching, PageAnswers, Joined;
    var a := AnswersArePages(store, org, tests, size, answers);
    forall k | 0 <= k < |a| ensures a[k] == r {
      OrderedUnique(CreatedLe, r, a[k]);
    }
    PagesOfOne(a, r, size);
    assert r[..|r|] == r;
  }
}
