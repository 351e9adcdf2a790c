/** What other tenants can do to a tenant: nothing, unless they take one of its identifiers first. */
module TenantIsolation {
  import opened Wrappers
  import opened Sorting
  import opened Organizations
  import opened Tenant

  function Run(store: Store, ops: seq<Op>): Store {
    if ops == [] then store else Step(Run(store, ops[..|ops| - 1]), ops[|ops| - 1])
  }

  /** The run without the operations of other tenants. */
  function Purge(ops: seq<Op>, org: string): seq<Op> {
    if ops == [] then []
    else
      var rest := Purge(ops[..|ops| - 1], org);
      if ops[|ops| - 1].row.organizationId == org then rest + [ops[|ops| - 1]] else rest
  }

  /** A save leaves `organization_id` as it is. */
  ghost predicate KeepsTenant(store: Store, op: Op) {
    op.Save? ==>
      var found := Find(store.rows, op.row.id);
      found.Some? ==> store.rows[found.value].organizationId == op.row.organizationId
  }

  ghost predicate SavesKeepTenants(store: Store, ops: seq<Op>) {
    forall k :: 0 <= k < |ops| ==> KeepsTenant(Run(store, ops[..k]), ops[k])
  }

  /** The tenant adds a row whose identifier, not in use at the start, now belongs to another tenant's row. */
  ghost predicate TakenFirst(start: Store, now: Store, op: Op, org: string) {
    && op.Add? && op.row.organizationId == org && Refusal(now.organizations, org).None?
    && Find(start.rows, op.row.id).None?
    && var found := Find(now.rows, op.row.id); found.Some? && now.rows[found.value].organizationId != org
  }

  /** No identifier of the tenant is taken by another tenant during the run. */
  ghost predicate NothingTaken(store: Store, ops: seq<Op>, org: string) {
    forall k :: 0 <= k < |ops| ==> !TakenFirst(store, Run(store, ops[..k]), ops[k], org)
  }

  /** Every read of the tenant has exactly the answers it would have had if no other tenant had done anything. */
  ghost predicate Undisturbed(store: Store, ops: seq<Op>, org: string) {
    forall q, out :: Answers(Run(store, ops), org, q, out) <==> Answers(Run(store, Purge(ops, org)), org, q, out)
  }

  // ---------------------------------------------------------------- rows of one tenant

  lemma ScopedUpdate(rows: seq<Row>, org: string, i: nat, row: Row)
    requires i < |rows| && rows[i].organizationId == row.organizationId && rows[i].id == row.id
    ensures row.organizationId != org ==> Filter(Own(org), rows[i := row]) == Filter(Own(org), rows)
    ensures row.organizationId == org ==>
              multiset(Filter(Own(org), rows[i := row])) == multiset(Filter(Own(org), rows)) - multiset{rows[i]} + multiset{row}
  {
    hide Filter;
    FilterReplaced(Own(org), rows, i, row);
    MultisetReplaced(Filter(Own(org), rows[..i]), rows[i], row, Filter(Own(org), rows[i + 1..]));
  }

  lemma MultisetReplaced(front: seq<Row>, x: Row, y: Row, back: seq<Row>)
    ensures multiset(front + ([y] + back)) == multiset(front + ([x] + back)) - multiset{x} + multiset{y}
  {
  }

  lemma ScopedAppend(rows: seq<Row>, org: string, row: Row)
    ensures Filter(Own(org), rows + [row]) == Filter(Own(org), rows) + (if row.organizationId == org then [row] else [])
  {
    FilterConcat(Own(org), rows, [row]);
    FilterCons(Own(org), row, []);
    assert [row] + [] == [row];
  }

  lemma ScopedMember(store: Store, org: string, r: Row)
    ensures r in Scoped(store, org) <==> r in store.rows && r.organizationId == org
  {
    FilterMember(Own(org), store.rows, r);
  }

  // ---------------------------------------------------------------- the mirror

  /** Every identifier of the first table is in the second. */
  ghost predicate IdsWithin(rows: seq<Row>, others: seq<Row>) {
    forall r :: r in rows ==> Find(others, r.id).Some?
  }

  /** The purged store holds the same rows of the tenant and no identifier the full one lacks. */
  ghost predicate Mirrors(purged: Store, full: Store, org: string) {
    && purged.organizations == full.organizations
    && multiset(Scoped(purged, org)) == multiset(Scoped(full, org))
    && UniqueIds(purged.rows) && UniqueIds(full.rows)
    && IdsWithin(purged.rows, full.rows)
  }

  lemma StepKeepsIds(store: Store, op: Op, id: string)
    requires Find(store.rows, id).Some?
    ensures Find(Step(store, op).rows, id).Some?
  {
    var i := Find(store.rows, id).value;
    var after := Step(store, op).rows;
    assert i < |after| && after[i].id == id;
  }

  lemma {:induction false} RunKeepsIds(store: Store, ops: seq<Op>, id: string)
    requires Find(store.rows, id).Some?
    ensures Find(Run(store, ops).rows, id).Some?
  {
    if ops != [] {
      RunKeepsIds(store, ops[..|ops| - 1], id);
      StepKeepsIds(Run(store, ops[..|ops| - 1]), ops[|ops| - 1], id);
    }
  }

  lemma StepKeepsUnique(store: Store, op: Op)
    requires UniqueIds(store.rows)
    ensures UniqueIds(Step(store, op).rows)
  {
  }

  lemma OthersStep(full: Store, op: Op, org: string)
    requires KeepsTenant(full, op) && op.row.organizationId != org
    ensures Scoped(Step(full, op), org) == Scoped(full, org)
  {
    match op
    case Add(row) => ScopedAppend(full.rows, org, row);
    case Save(row) =>
      var found := Find(full.rows, row.id);
      if found.Some? {
        ScopedUpdate(full.rows, org, found.value, row);
      }
  }

  lemma OthersKeepMirror(purged: Store, full: Store, org: string, op: Op)
    requires Mirrors(purged, full, org) && KeepsTenant(full, op) && op.row.organizationId != org
    ensures Mirrors(purged, Step(full, op), org)
  {
    OthersStep(full, op, org);
    StepKeepsUnique(full, op);
    forall r | r in purged.rows ensures Find(Step(full, op).rows, r.id).Some? {
      StepKeepsIds(full, op, r.id);
    }
  }

  /** A row of the tenant that one store holds, the other holds too. */
  lemma SameOwnRow(purged: Store, full: Store, org: string, r: Row)
    requires Mirrors(purged, full, org) && r.organizationId == org
    ensures r in purged.rows <==> r in full.rows
  {
    SameElements(Scoped(purged, org), Scoped(full, org));
    ScopedMember(purged, org, r);
    ScopedMember(full, org, r);
  }

  lemma FoundIsMember(rows: seq<Row>, i: nat)
    requires UniqueIds(rows) && i < |rows|
    ensures Find(rows, rows[i].id) == Some(i)
  {
  }

  /** An identifier the tenant uses is found in both stores, at the same row. */
  lemma SameOwnFound(purged: Store, full: Store, org: string, id: string)
    requires Mirrors(purged, full, org)
    requires Find(full.rows, id).Some? && full.rows[Find(full.rows, id).value].organizationId == org
    ensures Find(purged.rows, id).Some? && purged.rows[Find(purged.rows, id).value] == full.rows[Find(full.rows, id).value]
  {
    var r := full.rows[Find(full.rows, id).value];
    SameOwnRow(purged, full, org, r);
    var i :| 0 <= i < |purged.rows| && purged.rows[i] == r;
    FoundIsMember(purged.rows, i);
  }

  lemma FoundWithin(rows: seq<Row>, others: seq<Row>, id: string)
    requires IdsWithin(rows, others)
    ensures Find(rows, id).Some? ==> Find(others, id).Some?
  {
    var found := Find(rows, id);
    if found.Some? {
      assert rows[found.value] in rows;
    }
  }

  lemma AppendWithin(rows: seq<Row>, others: seq<Row>, row: Row)
    requires IdsWithin(rows, others)
    ensures IdsWithin(rows + [row], others + [row])
  {
    forall r | r in rows + [row] ensures Find(others + [row], r.id).Some? {
      if r in rows {
        var i := Find(others, r.id).value;
        assert (others + [row])[i].id == r.id;
      } else {
        assert (others + [row])[|others|].id == r.id;
      }
    }
  }

  /** An add whose identifier is free in both stores, or taken in both, keeps the mirror. */
  lemma OwnAdd(purged: Store, full: Store, org: string, row: Row)
    requires Mirrors(purged, full, org) && row.organizationId == org
    requires Find(purged.rows, row.id).Some? <==> Find(full.rows, row.id).Some?
    ensures Mirrors(Step(purged, Add(row)), Step(full, Add(row)), org)
  {
    StepKeepsUnique(purged, Add(row));
    StepKeepsUnique(full, Add(row));
    AppendWithin(purged.rows, full.rows, row);
    ScopedAppend(purged.rows, org, row);
    ScopedAppend(full.rows, org, row);
    hide UniqueIds, IdsWithin, Filter;
  }

  lemma UpdateWithin(rows: seq<Row>, others: seq<Row>, i: nat, j: nat, row: Row)
    requires IdsWithin(rows, others) && i < |rows| && j < |others| && rows[i].id == row.id && others[j].id == row.id
    ensures IdsWithin(rows[i := row], others[j := row])
  {
    forall r | r in rows[i := row] ensures Find(others[j := row], r.id).Some? {
      if r == row {
        assert others[j := row][j].id == r.id;
      } else {
        assert r in rows;
        var k := Find(others, r.id).value;
        assert others[j := row][k].id == r.id;
      }
    }
  }

  lemma OwnSave(purged: Store, full: Store, org: string, row: Row)
    requires Mirrors(purged, full, org) && KeepsTenant(full, Save(row)) && row.organizationId == org
    ensures Mirrors(Step(purged, Save(row)), Step(full, Save(row)), org)
  {
    StepKeepsUnique(purged, Save(row));
    StepKeepsUnique(full, Save(row));
    if Find(full.rows, row.id).Some? {
      SameOwnFound(purged, full, org, row.id);
      var i, j := Find(purged.rows, row.id).value, Find(full.rows, row.id).value;
      ScopedUpdate(purged.rows, org, i, row);
      ScopedUpdate(full.rows, org, j, row);
      UpdateWithin(purged.rows, full.rows, i, j, row);
      hide UniqueIds, IdsWithin, Filter;
    } else {
      FoundWithin(purged.rows, full.rows, row.id);
    }
  }

  // ---------------------------------------------------------------- runs

  /** The shorter run of a run is its prefix. */
  lemma PurgeLast(ops: seq<Op>, org: string)
    requires ops != []
    ensures var shorter, op := ops[..|ops| - 1], ops[|ops| - 1];
            Purge(ops, org) == if op.row.organizationId == org then Purge(shorter, org) + [op] else Purge(shorter, org)
  {
  }

  lemma RunOneMore(store: Store, ops: seq<Op>, op: Op)
    ensures Run(store, ops + [op]) == Step(Run(store, ops), op)
  {
    assert (ops + [op])[..|ops|] == ops;
  }

  /** An add that no one took first finds its identifier free in both stores, or taken in both. */
  lemma FreeOrTakenInBoth(store: Store, purgedOps: seq<Op>, full: Store, org: string, row: Row)
    requires Mirrors(Run(store, purgedOps), full, org) && row.organizationId == org
    requires Refusal(full.organizations, org).None? && !TakenFirst(store, full, Add(row), org)
    ensures Find(Run(store, purgedOps).rows, row.id).Some? <==> Find(full.rows, row.id).Some?
  {
    var purged := Run(store, purgedOps);
    if Find(full.rows, row.id).None? {
      FoundWithin(purged.rows, full.rows, row.id);
    } else if full.rows[Find(full.rows, row.id).value].organizationId == org {
      SameOwnFound(purged, full, org, row.id);
    } else {
      RunKeepsIds(store, purgedOps, row.id);
    }
  }

  lemma RefusedAdd(purged: Store, full: Store, org: string, row: Row)
    requires Mirrors(purged, full, org) && row.organizationId == org && Refusal(full.organizations, org).Some?
    ensures Step(purged, Add(row)) == purged && Step(full, Add(row)) == full
  {
  }

  lemma IdsWithinSelf(rows: seq<Row>)
    ensures IdsWithin(rows, rows)
  {
    forall r | r in rows ensures Find(rows, r.id).Some? {
      var i :| 0 <= i < |rows| && rows[i] == r;
    }
  }

  lemma StepMirrors(store: Store, purgedOps: seq<Op>, full: Store, org: string, op: Op)
    requires Mirrors(Run(store, purgedOps), full, org) && KeepsTenant(full, op) && op.row.organizationId == org
    requires !TakenFirst(store, full, op, org)
    ensures Mirrors(Run(store, purgedOps + [op]), Step(full, op), org)
  {
    var purged := Run(store, purgedOps);
    RunOneMore(store, purgedOps, op);
    hide Mirrors, Run, Step;
    if op.Save? {
      OwnSave(purged, full, org, op.row);
    } else if Refusal(full.organizations, org).Some? {
      RefusedAdd(purged, full, org, op.row);
    } else {
      FreeOrTakenInBoth(store, purgedOps, full, org, op.row);
      OwnAdd(purged, full, org, op.row);
    }
  }

  ghost predicate Shorter(ops: seq<Op>, n: nat, store: Store, org: string)
    requires n < |ops|
  {
    (SavesKeepTenants(store, ops) ==> SavesKeepTenants(store, ops[..n])) && (NothingTaken(store, ops, org) ==> NothingTaken(store, ops[..n], org))
  }

  lemma PrefixBehaves(store: Store, ops: seq<Op>, n: nat, org: string)
    requires n < |ops|
    ensures Shorter(ops, n, store, org)
  {
    var shorter := ops[..n];
    assert forall k :: 0 <= k < n ==> shorter[..k] == ops[..k] && shorter[k] == ops[k];
    hide Run, KeepsTenant, TakenFirst;
  }

  lemma {:induction false} PurgedRunMirrors(store: Store, ops: seq<Op>, org: string)
    requires UniqueIds(store.rows) && SavesKeepTenants(store, ops) && NothingTaken(store, ops, org)
    ensures Mirrors(Run(store, Purge(ops, org)), Run(store, ops), org)
  {
    if ops == [] {
      IdsWithinSelf(store.rows);
    } else {
      var n := |ops| - 1;
      var shorter, op := ops[..n], ops[n];
      PrefixBehaves(store, ops, n, org);
      PurgedRunMirrors(store, shorter, org);
      PurgeLast(ops, org);
      hide Mirrors, TakenFirst, KeepsTenant, Step;
      if op.row.organizationId == org {
        StepMirrors(store, Purge(shorter, org), Run(store, shorter), org, op);
      } else {
        OthersKeepMirror(Run(store, Purge(shorter, org)), Run(store, shorter), org, op);
      }
    }
  }

  /** Non-interference: a run in which nobody takes an identifier of the tenant first leaves every one of its reads alone. */
  lemma {:induction false} TenantNonInterference(store: Store, ops: seq<Op>, org: string)
    requires UniqueIds(store.rows) && SavesKeepTenants(store, ops) && NothingTaken(store, ops, org)
    ensures Undisturbed(store, ops, org)
  {
    PurgedRunMirrors(store, ops, org);
    hide Run, Purge;
    forall q, out ensures Answers(Run(store, ops), org, q, out) <==> Answers(Run(store, Purge(ops, org)), org, q, out) {
      ReadsSeeOwnRowsOnly(Run(store, ops), Run(store, Purge(ops, org)), org, q, out);
    }
  }

  // ---------------------------------------------------------------- the converse

  /** Rows of others in a run of the tenant's own operations were there from the start. */
  lemma {:induction false} OthersAreInitial(store: Store, ops: seq<Op>, org: string, r: Row)
    requires forall k :: 0 <= k < |ops| ==> ops[k].row.organizationId == org
    requires r in Run(store, ops).rows && r.organizationId != org
    ensures r in store.rows
  {
    if ops != [] {
      var shorter, op := ops[..|ops| - 1], ops[|ops| - 1];
      assert r in Run(store, shorter).rows;
      OthersAreInitial(store, shorter, org, r);
    }
  }

  lemma {:induction false} PurgedAreOwn(ops: seq<Op>, org: string)
    ensures forall k :: 0 <= k < |Purge(ops, org)| ==> Purge(ops, org)[k].row.organizationId == org
  {
    if ops != [] {
      PurgedAreOwn(ops[..|ops| - 1], org);
    }
  }

  /** Only one row holds an identifier. */
  lemma OnlyHolder(rows: seq<Row>, id: string, r: Row)
    requires UniqueIds(rows) && Find(rows, id).Some? && r in rows && r.id == id
    ensures r == rows[Find(rows, id).value]
  {
  }

  /** A row of the purged store with an identifier that another tenant holds in the full one is itself another tenant's. */
  lemma HeldByOthers(purged: Store, full: Store, org: string, r: Row)
    requires Mirrors(purged, full, org) && r in purged.rows
    requires Find(full.rows, r.id).Some? && full.rows[Find(full.rows, r.id).value].organizationId != org
    ensures r.organizationId != org
  {
    if r.organizationId == org {
      SameOwnRow(purged, full, org, r);
      OnlyHolder(full.rows, r.id, r);
    }
  }

  /** What another tenant took first is free without it. */
  lemma TakenIsFree(store: Store, purgedOps: seq<Op>, full: Store, org: string, row: Row)
    requires Mirrors(Run(store, purgedOps), full, org) && TakenFirst(store, full, Add(row), org)
    requires forall k :: 0 <= k < |purgedOps| ==> purgedOps[k].row.organizationId == org
    ensures Find(Run(store, purgedOps).rows, row.id).None?
  {
    var purged := Run(store, purgedOps);
    var found := Find(purged.rows, row.id);
    if found.Some? {
      var r := purged.rows[found.value];
      HeldByOthers(purged, full, org, r);
      OthersAreInitial(store, purgedOps, org, r);
    }
  }

  /** A tenant that counts its rows sees the row that was kept out. */
  lemma CountsDiffer(purged: Store, full: Store, org: string)
    requires Refusal(full.organizations, org).None? && Refusal(purged.organizations, org).None?
    requires forall q, out :: Answers(full, org, q, out) <==> Answers(purged, org, q, out)
    ensures |Scoped(purged, org)| == |Scoped(full, org)|
  {
    var out := Scoped(full, org);
    NoTests(out);
    assert out[0..] == out;
    assert Arrangement(out, Filter(PassesAll([]), out), Unordered) && out == Page(out, 0, None);
    assert Answers(full, org, Count(), Ok(out));
    CountMeaning(purged, org, out);
  }

  /** The add that is refused in one store and accepted in the other. */
  lemma KeptOut(purged: Store, full: Store, org: string, row: Row)
    requires Mirrors(purged, full, org) && row.organizationId == org && Refusal(full.organizations, org).None?
    requires Find(purged.rows, row.id).None? && Find(full.rows, row.id).Some?
    ensures Step(full, Add(row)) == full && Step(purged, Add(row)).organizations == full.organizations
    ensures |Scoped(Step(purged, Add(row)), org)| == |Scoped(full, org)| + 1
  {
    ScopedAppend(purged.rows, org, row);
    SameElements(Scoped(purged, org), Scoped(full, org));
    hide Filter;
  }

  /** Both runs, one operation of the tenant further. */
  lemma RunsAfter(store: Store, ops: seq<Op>, n: nat, org: string)
    requires n < |ops| && ops[n].row.organizationId == org
    ensures Run(store, ops[..n + 1]) == Step(Run(store, ops[..n]), ops[n])
    ensures Run(store, Purge(ops[..n + 1], org)) == Step(Run(store, Purge(ops[..n], org)), ops[n])
  {
    assert ops[..n + 1] == ops[..n] + [ops[n]] && ops[..n + 1][..n] == ops[..n];
    PurgeLast(ops[..n + 1], org);
    RunOneMore(store, ops[..n], ops[n]);
    RunOneMore(store, Purge(ops[..n], org), ops[n]);
  }

  lemma {:induction false} TakingDisturbs(store: Store, ops: seq<Op>, org: string, n: nat)
    requires UniqueIds(store.rows) && SavesKeepTenants(store, ops)
    requires n < |ops| && NothingTaken(store, ops[..n], org) && TakenFirst(store, Run(store, ops[..n]), ops[n], org)
    ensures !Undisturbed(store, ops[..n + 1], org)
  {
    var row, purgedOps := ops[n].row, Purge(ops[..n], org);
    PrefixBehaves(store, ops, n, org);
    PurgedRunMirrors(store, ops[..n], org);
    PurgedAreOwn(ops[..n], org);
    TakenIsFree(store, purgedOps, Run(store, ops[..n]), org, row);
    KeptOut(Run(store, purgedOps), Run(store, ops[..n]), org, row);
    RunsAfter(store, ops, n, org);
    hide Run, Purge, Step, Answers, Scoped, Mirrors;
    if Undisturbed(store, ops[..n + 1], org) {
      CountsDiffer(Run(store, Purge(ops[..n + 1], org)), Run(store, ops[..n + 1]), org);
    }
  }

  lemma {:induction false} FirstTaken(store: Store, ops: seq<Op>, org: string) returns (n: nat)
    requires !NothingTaken(store, ops, org)
    ensures n < |ops| && NothingTaken(store, ops[..n], org) && TakenFirst(store, Run(store, ops[..n]), ops[n], org)
  {
    hide TakenFirst, Run;
    var m := |ops| - 1;
    var shorter := ops[..m];
    assert forall k :: 0 <= k < m ==> shorter[..k] == ops[..k] && shorter[k] == ops[k];
    if NothingTaken(store, shorter, org) {
      n := m;
    } else {
      n := FirstTaken(store, shorter, org);
      assert shorter[..n] == ops[..n];
    }
  }

  /**
   Exactly when other tenants cannot be noticed: at every point of the run every read of the tenant
   has the answers it would have had without them, if and only if none of them takes an identifier
   that the tenant goes on to use.
   */
  lemma {:induction false} TenantNonInterferenceIff(store: Store, ops: seq<Op>, org: string)
    requires UniqueIds(store.rows) && SavesKeepTenants(store, ops)
    ensures (forall k :: 0 <= k <= |ops| ==> Undisturbed(store, ops[..k], org)) <==> NothingTaken(store, ops, org)
  {
    hide Undisturbed;
    if NothingTaken(store, ops, org) {
      forall k | 0 <= k <= |ops| ensures Undisturbed(store, ops[..k], org) {
        if k < |ops| {
          PrefixBehaves(store, ops, k, org);
        } else {
          assert ops[..k] == ops;
        }
        TenantNonInterference(store, ops[..k], org);
      }
    } else {
      var n := FirstTaken(store, ops, org);
      TakingDisturbs(store, ops, org, n);
    }
  }

  lemma AddToEmpty(store: Store, row: Row)
    requires store.rows == [] && Refusal(store.organizations, row.organizationId).None?
    ensures Run(store, [Add(row)]) == store.(rows := [row])
  {
    assert [Add(row)] == [] + [Add(row)];
    RunOneMore(store, [], Add(row));
  }

  lemma AddTaken(store: Store, row: Row, other: Row)
    requires store.rows == [] && Refusal(store.organizations, other.organizationId).None? && row.id == other.id
    ensures Run(store, [Add(other), Add(row)]) == store.(rows := [other])
  {
    AddToEmpty(store, other);
    hide Run;
    assert [Add(other), Add(row)] == [Add(other)] + [Add(row)];
    RunOneMore(store, [Add(other)], Add(row));
  }

  lemma ScopedOfOne(store: Store, row: Row, org: string)
    requires store.rows == [row]
    ensures Scoped(store, org) == if row.organizationId == org then [row] else []
  {
  }

  /** Primary keys are global: a reused identifier lets one tenant's write block another's. */
  lemma ReusedIdentifierInterferes(store: Store, row: Row, other: Row)
    requires store.rows == [] && row.id == other.id && row.organizationId != other.organizationId
    requires Refusal(store.organizations, row.organizationId).None? && Refusal(store.organizations, other.organizationId).None?
    ensures Scoped(Run(store, [Add(row)]), row.organizationId) == [row]
    ensures Scoped(Run(store, [Add(other), Add(row)]), row.organizationId) == []
  {
    AddToEmpty(store, row);
    AddTaken(store, row, other);
    hide Run, Scoped;
    ScopedOfOne(store.(rows := [row]), row, row.organizationId);
    ScopedOfOne(store.(rows := [other]), other, row.organizationId);
  }
}
