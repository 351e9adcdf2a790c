/** Canonical serialisation is a function of the content, and an injective one. */
module JsonCanonical {
  import opened Wrappers
  import opened PyText
  import opened JsonText
  import opened Json
  import opened Sorting
  import JsonRoundTrip

  lemma KeyOrder()
    ensures TotalPreorder(KeyLe)
  {
    forall a, b ensures KeyLe(a, b) || KeyLe(b, a) {
      StrLeTotal(a.key, b.key);
    }
    forall a, b, c | KeyLe(a, b) && KeyLe(b, c) ensures KeyLe(a, c) {
      StrLeTransitive(a.key, b.key, c.key);
    }
  }

  lemma HeadKeyIsNew(m: Member, ms: seq<Member>)
    requires DistinctKeys(ms)
    requires forall x :: x in ms ==> x.key != m.key
    ensures DistinctKeys([m] + ms)
  {
  }

  lemma {:induction false} DistinctUnderInsert(m: Member, ms: seq<Member>)
    requires DistinctKeys(ms)
    requires forall x :: x in ms ==> x.key != m.key
    ensures DistinctKeys(Insert(KeyLe, m, ms))
  {
    if ms != [] && !KeyLe(m, ms[0]) {
      var rest := Insert(KeyLe, m, ms[1..]);
      DistinctUnderInsert(m, ms[1..]);
      SameElements(rest, [m] + ms[1..]);
      forall x | x in rest ensures x.key != ms[0].key {
        assert x == m || x in ms[1..];
      }
      HeadKeyIsNew(ms[0], rest);
    }
  }

  lemma {:induction false} DistinctUnderSort(ms: seq<Member>)
    requires DistinctKeys(ms)
    ensures DistinctKeys(Sort(KeyLe, ms))
  {
    if ms != [] {
      DistinctUnderSort(ms[1..]);
      SameElements(Sort(KeyLe, ms[1..]), ms[1..]);
      DistinctUnderInsert(ms[0], Sort(KeyLe, ms[1..]));
    }
  }

  lemma {:induction false} CanonValid(v: Value)
    requires Valid(v)
    ensures Valid(Canon(v))
  {
    match v
    case Arr(items) =>
      forall i | 0 <= i < |items| ensures Valid(CanonItems(items)[i]) {
        CanonValid(items[i]);
      }
    case Obj(ms) =>
      var cs := CanonMembers(ms);
      var sorted := Sort(KeyLe, cs);
      forall i | 0 <= i < |ms| ensures Valid(cs[i].value) {
        CanonValid(ms[i].value);
      }
      DistinctUnderSort(cs);
      SameElements(sorted, cs);
      forall i | 0 <= i < |sorted| ensures Valid(sorted[i].value) {
        assert sorted[i] in cs;
      }
    case _ =>
  }

  lemma TiesAreEqual(ms: seq<Member>)
    requires DistinctKeys(ms)
    ensures TiesOnlyEqual(KeyLe, ms)
  {
    forall i, j | 0 <= i < |ms| && 0 <= j < |ms| && KeyLe(ms[i], ms[j]) && KeyLe(ms[j], ms[i])
      ensures ms[i] == ms[j]
    {
      StrLeAntisymmetric(ms[i].key, ms[j].key);
    }
  }

  /** Without repeats, having the same elements is being a permutation. */
  lemma {:induction false} SameSetSamePermutation(a: seq<Member>, b: seq<Member>)
    requires DistinctKeys(a) && DistinctKeys(b)
    requires forall m :: m in a <==> m in b
    ensures multiset(a) == multiset(b)
  {
    forall m ensures multiset(a)[m] == multiset(b)[m] {
      OccursOnce(a, m);
      OccursOnce(b, m);
    }
  }

  lemma {:induction false} OccursOnce(a: seq<Member>, m: Member)
    requires DistinctKeys(a)
    ensures multiset(a)[m] == if m in a then 1 else 0
  {
    if a != [] {
      assert a == [a[0]] + a[1..];
      OccursOnce(a[1..], m);
      if m == a[0] {
        forall j | 0 <= j < |a[1..]| ensures a[1..][j] != m {
          assert a[1..][j] == a[j + 1];
        }
      }
    }
  }

  lemma SortOfSameMembers(a: seq<Member>, b: seq<Member>)
    requires DistinctKeys(a) && DistinctKeys(b)
    requires forall i :: 0 <= i < |a| ==> a[i] in b
    requires forall j :: 0 <= j < |b| ==> b[j] in a
    ensures Sort(KeyLe, a) == Sort(KeyLe, b)
  {
    SameSetSamePermutation(a, b);
    KeyOrder();
    TiesAreEqual(a);
    SortOfPermutation(KeyLe, a, b);
  }

  lemma {:induction false} SameCanon(v: Value, w: Value)
    requires Valid(v) && Valid(w) && Same(v, w)
    ensures Canon(v) == Canon(w)
    decreases v, 1
  {
    match v
    case Arr(xs) =>
      forall i | 0 <= i < |xs| ensures Canon(xs[i]) == Canon(w.items[i]) {
        SameCanon(xs[i], w.items[i]);
      }
    case Obj(ms) =>
      SameCanonMembers(ms, w.members);
      SortOfSameMembers(CanonMembers(ms), CanonMembers(w.members));
    case _ =>
  }

  lemma {:induction false} FoundCanon(m: Member, ns: seq<Member>)
    requires Valid(m.value) && (forall j :: 0 <= j < |ns| ==> Valid(ns[j].value)) && FoundIn(m, ns)
    ensures Member(m.key, Canon(m.value)) in CanonMembers(ns)
    decreases m, 0
  {
    var j :| 0 <= j < |ns| && m.key == ns[j].key && Same(m.value, ns[j].value);
    SameCanon(m.value, ns[j].value);
    assert CanonMembers(ns)[j] == Member(m.key, Canon(m.value));
  }

  lemma {:induction false} FindsCanon(ms: seq<Member>, n: Member)
    requires Valid(n.value) && (forall i :: 0 <= i < |ms| ==> Valid(ms[i].value)) && Finds(ms, n)
    ensures Member(n.key, Canon(n.value)) in CanonMembers(ms)
    decreases ms, 0
  {
    var i :| 0 <= i < |ms| && ms[i].key == n.key && Same(ms[i].value, n.value);
    SameCanon(ms[i].value, n.value);
    assert CanonMembers(ms)[i] == Member(n.key, Canon(n.value));
  }

  lemma {:induction false} SameCanonMembers(ms: seq<Member>, ns: seq<Member>)
    requires forall i :: 0 <= i < |ms| ==> Valid(ms[i].value) && FoundIn(ms[i], ns)
    requires forall j :: 0 <= j < |ns| ==> Valid(ns[j].value) && Finds(ms, ns[j])
    ensures forall i :: 0 <= i < |ms| ==> CanonMembers(ms)[i] in CanonMembers(ns)
    ensures forall j :: 0 <= j < |ns| ==> CanonMembers(ns)[j] in CanonMembers(ms)
    decreases ms, 1
  {
    forall i | 0 <= i < |ms| ensures CanonMembers(ms)[i] in CanonMembers(ns) {
      FoundCanon(ms[i], ns);
    }
    forall j | 0 <= j < |ns| ensures CanonMembers(ns)[j] in CanonMembers(ms) {
      FindsCanon(ms, ns[j]);
    }
  }

  lemma SortedElsewhere(a: seq<Member>, b: seq<Member>)
    requires Sort(KeyLe, a) == Sort(KeyLe, b)
    ensures forall m :: m in a <==> m in b
  {
    SameElements(a, Sort(KeyLe, a));
    SameElements(b, Sort(KeyLe, b));
  }

  lemma {:induction false} CanonSame(v: Value, w: Value)
    requires Canon(v) == Canon(w)
    ensures Same(v, w)
    decreases v, 1
  {
    match v
    case Arr(xs) =>
      forall i | 0 <= i < |xs| ensures Same(xs[i], w.items[i]) {
        assert CanonItems(xs)[i] == CanonItems(w.items)[i];
        CanonSame(xs[i], w.items[i]);
      }
    case Obj(ms) =>
      SortedElsewhere(CanonMembers(ms), CanonMembers(w.members));
      CanonSameMembers(ms, w.members);
    case _ =>
  }

  lemma {:induction false} CanonSameMembers(ms: seq<Member>, ns: seq<Member>)
    requires forall m :: m in CanonMembers(ms) <==> m in CanonMembers(ns)
    ensures forall i :: 0 <= i < |ms| ==> FoundIn(ms[i], ns)
    ensures forall j :: 0 <= j < |ns| ==> Finds(ms, ns[j])
    decreases ms, 0
  {
    var a, b := CanonMembers(ms), CanonMembers(ns);
    forall i | 0 <= i < |ms| ensures FoundIn(ms[i], ns) {
      assert a[i] in b;
      var j :| 0 <= j < |b| && b[j] == a[i];
      CanonSame(ms[i].value, ns[j].value);
    }
    forall j | 0 <= j < |ns| ensures Finds(ms, ns[j]) {
      assert b[j] in a;
      var i :| 0 <= i < |a| && a[i] == b[j];
      CanonSame(ms[i].value, ns[j].value);
    }
  }

  /** Two payloads serialise to the same canonical text exactly when they are equal as values. */
  lemma DumpsInjective(v: Value, w: Value)
    requires Valid(v) && Valid(w)
    ensures Dumps(v) == Dumps(w) <==> Same(v, w)
  {
    if Same(v, w) {
      SameCanon(v, w);
    }
    if Dumps(v) == Dumps(w) {
      CanonValid(v);
      CanonValid(w);
      JsonRoundTrip.LoadsPrint(Canon(v), COMPACT);
      JsonRoundTrip.LoadsPrint(Canon(w), COMPACT);
      CanonSame(v, w);
    }
  }

  lemma {:induction false} CanonIdempotent(v: Value)
    requires Valid(v)
    ensures Canon(Canon(v)) == Canon(v)
  {
    match v
    case Arr(items) =>
      forall i | 0 <= i < |items| ensures Canon(Canon(items[i])) == Canon(items[i]) {
        CanonIdempotent(items[i]);
      }
      assert CanonItems(CanonItems(items)) == CanonItems(items);
    case Obj(ms) =>
      var cs := CanonMembers(ms);
      var sorted := Sort(KeyLe, cs);
      SameElements(sorted, cs);
      forall i | 0 <= i < |sorted| ensures Canon(sorted[i].value) == sorted[i].value {
        assert sorted[i] in cs;
        var j :| 0 <= j < |cs| && cs[j] == sorted[i];
        CanonIdempotent(ms[j].value);
      }
      assert CanonMembers(sorted) == sorted;
      KeyOrder();
      SortOrdered(KeyLe, cs);
      DistinctUnderSort(cs);
      TiesAreEqual(sorted);
      SortOfOrdered(KeyLe, sorted);
    case _ =>
  }

  /**
   Text that `json.dumps` stored is read back as the canonical form of the payload, which is
   equal to the payload as a value and prints to the very same text again.
   */
  lemma {:induction false} StoredTextReadsBack(v: Value)
    requires Valid(v)
    ensures Loads(Dumps(v)) == Some(Canon(v))
    ensures Valid(Canon(v)) && Same(Canon(v), v)
    ensures Dumps(Canon(v)) == Dumps(v)
  {
    CanonValid(v);
    JsonRoundTrip.LoadsPrint(Canon(v), COMPACT);
    CanonIdempotent(v);
    CanonSame(Canon(v), v);
  }
}
