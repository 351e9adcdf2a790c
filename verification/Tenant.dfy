/**
 Tenant-scoped repositories: what a tenant can read, and what other tenants can do to it.

 SQL gives no order to rows that `ORDER BY` does not separate, so a query has a set of possible
 answers; `Answers` says which. Row identifiers (UUIDs) are parameters.
 */
module Tenant {
  import opened Wrappers
  import opened Sorting
  import opened Organizations

  datatype Row = Row(id: string, organizationId: string, createdAt: int, columns: map<string, string>)

  /** One table, and the organization registry with each organization's status. */
  datatype Store = Store(organizations: map<string, string>, rows: seq<Row>)

  function Own(org: string): Row -> bool {
    (r: Row) => r.organizationId == org
  }

  /** `_scoped`: the rows of one tenant. */
  function Scoped(store: Store, org: string): seq<Row> {
    Filter(Own(org), store.rows)
  }

  // ---------------------------------------------------------------- queries

  datatype Test = HasId(id: string) | Equals(column: string, value: string) | IsNull(column: string)

  datatype Order = Unordered | CreatedAscending | CreatedDescending

  datatype Query = Query(tests: seq<Test>, order: Order, skip: nat, limit: Option<nat>)

  predicate Passes(t: Test, r: Row) {
    match t
    case HasId(id) => r.id == id
    case Equals(c, v) => c in r.columns && r.columns[c] == v
    case IsNull(c) => c !in r.columns
  }

  function PassesAll(tests: seq<Test>): Row -> bool {
    (r: Row) => forall i :: 0 <= i < |tests| ==> Passes(tests[i], r)
  }

  predicate CreatedLe(a: Row, b: Row) {
    a.createdAt <= b.createdAt
  }

  predicate CreatedGe(a: Row, b: Row) {
    a.createdAt >= b.createdAt
  }

  /** `out` lists the given rows in an order that `ORDER BY` allows. */
  ghost predicate Arrangement(out: seq<Row>, rows: seq<Row>, order: Order) {
    && multiset(out) == multiset(rows)
    && (order == CreatedAscending ==> Ordered(CreatedLe, out))
    && (order == CreatedDescending ==> Ordered(CreatedGe, out))
  }

  /** `.offset(skip).limit(limit)`. */
  function Page(s: seq<Row>, skip: nat, limit: Option<nat>): seq<Row> {
    var rest := if skip <= |s| then s[skip..] else [];
    if limit.Some? && limit.value <= |rest| then rest[..limit.value] else rest
  }

  /** What a read for a tenant may return or raise. */
  ghost predicate Answers(store: Store, org: string, q: Query, out: Result<seq<Row>, TenantError>) {
    match Refusal(store.organizations, org)
    case Some(e) => out == Err(e)
    case None =>
      out.Ok? && exists full ::
        Arrangement(full, Filter(PassesAll(q.tests), Scoped(store, org)), q.order) && out.value == Page(full, q.skip, q.limit)
  }

  // The repository reads, as queries.

  function Get(id: string): Query { Query([HasId(id)], Unordered, 0, Some(1)) }

  function Count(): Query { Query([], Unordered, 0, None) }

  function FindOne(tests: seq<Test>): Query { Query(tests, Unordered, 0, Some(1)) }

  /** `list_filtered` and its kind; `list` is the one without tests. */
  function ListFiltered(tests: seq<Test>, skip: nat, limit: nat): Query { Query(tests, CreatedAscending, skip, Some(limit)) }

  function Latest(tests: seq<Test>): Query { Query(tests, CreatedDescending, 0, Some(1)) }

  // ---------------------------------------------------------------- reads

  /** Two stores look alike to a tenant: same registry entry, same own rows in whatever physical order. */
  ghost predicate LookAlike(a: Store, b: Store, org: string) {
    Refusal(a.organizations, org) == Refusal(b.organizations, org) && multiset(Scoped(a, org)) == multiset(Scoped(b, org))
  }

  /** No read, of any kind, tells apart two stores that look alike to the tenant. */
  lemma ReadsSeeOwnRowsOnly(a: Store, b: Store, org: string, q: Query, out: Result<seq<Row>, TenantError>)
    requires LookAlike(a, b, org)
    ensures Answers(a, org, q, out) <==> Answers(b, org, q, out)
  {
    FilterMultiset(PassesAll(q.tests), Scoped(a, org), Scoped(b, org));
  }

  /** A read is answered exactly for a tenant that is named, registered and ACTIVE, and each refusal says which of these fails. */
  lemma AnsweredIff(store: Store, org: string, q: Query, out: Result<seq<Row>, TenantError>)
    requires Answers(store, org, q, out)
    ensures out.Ok? <==> org != "" && org in store.organizations && store.organizations[org] == "ACTIVE"
    ensures out == Err(OrganizationRequired) <==> org == ""
    ensures out == Err(OrganizationNotFound) <==> org != "" && !(org in store.organizations && store.organizations[org] == "ACTIVE")
  {
  }

  /** Every row a tenant is handed is its own and has each identifier, value and null the query asks for. */
  lemma AnswersAreOwn(store: Store, org: string, q: Query, out: Result<seq<Row>, TenantError>, r: Row)
    requires Answers(store, org, q, out) && out.Ok? && r in out.value
    ensures r in store.rows && r.organizationId == org
    ensures forall id :: HasId(id) in q.tests ==> r.id == id
    ensures forall c, v :: Equals(c, v) in q.tests ==> c in r.columns && r.columns[c] == v
    ensures forall c :: IsNull(c) in q.tests ==> c !in r.columns
    ensures forall i :: 0 <= i < |q.tests| ==> Passes(q.tests[i], r)
  {
    var kept := Filter(PassesAll(q.tests), Scoped(store, org));
    var full :| Arrangement(full, kept, q.order) && out.value == Page(full, q.skip, q.limit);
    SameElements(full, kept);
    assert r in full;
    FilterMember(PassesAll(q.tests), Scoped(store, org), r);
    FilterMember(Own(org), store.rows, r);
  }

  predicate Matches(r: Row, org: string, tests: seq<Test>) {
    r.organizationId == org && PassesAll(tests)(r)
  }

  lemma KeptMeaning(store: Store, org: string, tests: seq<Test>, r: Row)
    ensures r in Filter(PassesAll(tests), Scoped(store, org)) <==> r in store.rows && Matches(r, org, tests)
  {
    FilterMember(PassesAll(tests), Scoped(store, org), r);
    FilterMember(Own(org), store.rows, r);
  }

  /** A `latest_*` or `current_*` query gives nothing when no row matches, and otherwise one matching row than which none is newer. */
  lemma LatestMeaning(store: Store, org: string, tests: seq<Test>, out: seq<Row>)
    requires Answers(store, org, Latest(tests), Ok(out))
    ensures |out| <= 1
    ensures out == [] <==> forall r :: r in store.rows ==> !Matches(r, org, tests)
    ensures out != [] ==> Matches(out[0], org, tests) && forall r :: r in store.rows && Matches(r, org, tests) ==> r.createdAt <= out[0].createdAt
  {
    var kept := Filter(PassesAll(tests), Scoped(store, org));
    var full :| Arrangement(full, kept, CreatedDescending) && out == Page(full, 0, Some(1));
    SameElements(full, kept);
    forall r ensures r in full <==> r in store.rows && Matches(r, org, tests) {
      KeptMeaning(store, org, tests, r);
    }
    hide Filter, Matches;
    assert full[0..] == full;
    if full != [] {
      assert out == [full[0]] && full[0] in full;
      forall r | r in full ensures r.createdAt <= full[0].createdAt {
        var i :| 0 <= i < |full| && full[i] == r;
        assert i == 0 || CreatedGe(full[0], full[i]);
      }
    }
  }

  /** `count` counts the tenant's rows. */
  lemma CountMeaning(store: Store, org: string, out: seq<Row>)
    requires Answers(store, org, Count(), Ok(out))
    ensures multiset(out) == multiset(Scoped(store, org)) && |out| == |Scoped(store, org)|
  {
    var full :| Arrangement(full, Filter(PassesAll([]), Scoped(store, org)), Unordered) && out == Page(full, 0, None);
    NoTests(Scoped(store, org));
    assert full[0..] == full;
    SameElements(out, Scoped(store, org));
  }

  lemma {:induction false} NoTests(rows: seq<Row>)
    ensures Filter(PassesAll([]), rows) == rows
  {
    if rows != [] {
      NoTests(rows[1..]);
      assert [rows[0]] + rows[1..] == rows;
    }
  }

  /** `find_one` gives nothing exactly when no row of the tenant matches, and otherwise one that does. */
  lemma FindOneMeaning(store: Store, org: string, tests: seq<Test>, out: seq<Row>)
    requires Answers(store, org, FindOne(tests), Ok(out))
    ensures |out| <= 1
    ensures out == [] <==> forall r :: r in store.rows ==> !Matches(r, org, tests)
    ensures out != [] ==> out[0] in store.rows && Matches(out[0], org, tests)
  {
    var kept := Filter(PassesAll(tests), Scoped(store, org));
    var full :| Arrangement(full, kept, Unordered) && out == Page(full, 0, Some(1));
    SameElements(full, kept);
    forall r ensures r in full <==> r in store.rows && Matches(r, org, tests) {
      KeptMeaning(store, org, tests, r);
    }
    hide Filter, Matches;
    assert full[0..] == full;
    if full != [] {
      assert out == [full[0]] && full[0] in full;
    }
  }

  /** `get` finds the row with the identifier exactly when it is the tenant's. */
  lemma GetMeaning(store: Store, org: string, id: string, out: seq<Row>, r: Row)
    requires Answers(store, org, Get(id), Ok(out)) && UniqueIds(store.rows)
    ensures out == [r] <==> r in store.rows && r.id == id && r.organizationId == org
  {
    var tests := [HasId(id)];
    var kept := Filter(PassesAll(tests), Scoped(store, org));
    var full :| Arrangement(full, kept, Unordered) && out == Page(full, 0, Some(1));
    SameElements(full, kept);
    assert full[0..] == full;
    forall q ensures q in full <==> q in store.rows && q.organizationId == org && q.id == id {
      KeptMeaning(store, org, tests, q);
      assert Passes(tests[0], q) <==> q.id == id;
    }
    hide Filter, PassesAll;
    if full != [] {
      assert full[0] in full && out == [full[0]];
    }
  }

  ghost predicate UniqueIds(rows: seq<Row>) {
    forall i, j :: 0 <= i < j < |rows| ==> rows[i].id != rows[j].id
  }

  lemma CreationOrder()
    ensures TotalPreorder(CreatedLe) && TotalPreorder(CreatedGe)
  {
  }

  // ---------------------------------------------------------------- writes

  datatype Op = Add(row: Row) | Save(row: Row)

  function Find(rows: seq<Row>, id: string): (r: Option<nat>)
    ensures r.Some? ==> r.value < |rows| && rows[r.value].id == id
    ensures r.None? ==> forall i :: 0 <= i < |rows| ==> rows[i].id != id
  {
    if rows == [] then None
    else if rows[0].id == id then Some(0)
    else
      match Find(rows[1..], id)
      case None => None
      case Some(i) => Some(i + 1)
  }

  /** `add` refuses an inactive tenant and a taken primary key; `save` checks nothing. */
  function Step(store: Store, op: Op): Store {
    match op
    case Add(row) =>
      if Refusal(store.organizations, row.organizationId).Some? || Find(store.rows, row.id).Some? then store
      else store.(rows := store.rows + [row])
    case Save(row) =>
      (match Find(store.rows, row.id)
       case None => store
       case Some(i) => store.(rows := store.rows[i := row]))
  }

  /** An add takes effect exactly when the row's tenant is registered and ACTIVE and no row has its identifier. */
  lemma AddTakesEffectIff(store: Store, row: Row)
    ensures var org := row.organizationId;
            var active := org != "" && org in store.organizations && store.organizations[org] == "ACTIVE";
            Step(store, Add(row)).rows ==
            if active && (forall i :: 0 <= i < |store.rows| ==> store.rows[i].id != row.id) then store.rows + [row] else store.rows
  {
  }

  /** A save replaces the row with its identifier in place, whatever it changes in it, and no other; without one it does nothing. */
  lemma SaveReplaces(store: Store, row: Row)
    requires UniqueIds(store.rows)
    ensures var after := Step(store, Save(row));
            && after.organizations == store.organizations && |after.rows| == |store.rows|
            && forall i :: 0 <= i < |store.rows| ==> after.rows[i] == if store.rows[i].id == row.id then row else store.rows[i]
  {
  }

  datatype WriteError = TenantRefused(error: TenantError) | DuplicateKey

  class TenantRepository {
    const organizations: map<string, string>
    var rows: seq<Row>

    constructor (organizations: map<string, string>, rows: seq<Row>)
      ensures this.organizations == organizations && this.rows == rows
    {
      this.organizations, this.rows := organizations, rows;
    }

    function Contents(): Store
      reads this
    {
      Store(organizations, rows)
    }

    /** Any of the scoped reads; it answers one of the results the query may have, and changes nothing. */
    method Read(org: string, q: Query) returns (out: Result<seq<Row>, TenantError>)
      ensures Answers(Contents(), org, q, out)
    {
      var refusal := Refusal(organizations, org);
      if refusal.Some? {
        return Err(refusal.value);
      }
      var full := Filter(PassesAll(q.tests), Scoped(Contents(), org));
      CreationOrder();
      if q.order == CreatedAscending {
        SortOrdered(CreatedLe, full);
        full := Sort(CreatedLe, full);
      } else if q.order == CreatedDescending {
        SortOrdered(CreatedGe, full);
        full := Sort(CreatedGe, full);
      }
      return Ok(Page(full, q.skip, q.limit));
    }

    method Insert(row: Row) returns (error: Option<WriteError>)
      modifies this`rows
      ensures Contents() == Step(old(Contents()), Add(row))
      ensures error == None <==> Refusal(organizations, row.organizationId).None? && Find(old(rows), row.id).None?
      ensures rows == if error == None then old(rows) + [row] else old(rows)
    {
      var refusal := Refusal(organizations, row.organizationId);
      if refusal.Some? {
        return Some(TenantRefused(refusal.value));
      }
      if Find(rows, row.id).Some? {
        return Some(DuplicateKey);
      }
      rows := rows + [row];
      return None;
    }

    /** Commits an instance that was changed in place: its tenant is not looked at again. */
    method Persist(row: Row)
      modifies this`rows
      ensures Contents() == Step(old(Contents()), Save(row))
    {
      var found := Find(rows, row.id);
      if found.Some? {
        rows := rows[found.value := row];
      }
    }
  }
}
