/**
 Migration `0008_decision_authorization_binding`: columns and indexes added to two tables by loops,
 and dropped again by loops in the reverse order.

 Column names are unique in a table and index names are unique in the schema. A column that an
 index uses cannot be dropped, so the order of the downgrade matters.
 */
module Migration0008 {
  import opened Wrappers
  import opened Sorting

  datatype Column = Column(name: string, sqlType: string, nullable: bool, serverDefault: Option<string>)

  datatype Index = Index(table: string, column: string)

  datatype SchemaError =
    | NoSuchTable(table: string)
    | DuplicateColumn(column: string)
    | NoSuchColumn(column: string)
    | ColumnInUse(column: string)
    | DuplicateIndex(index: string)
    | NoSuchIndex(index: string)

  type Columns = map<string, seq<Column>>
  type Indexes = map<string, Index>

  const DECISIONS := "decisions"
  const AUTHORIZATIONS := "execution_authorizations"

  function Nullable(name: string, sqlType: string): Column {
    Column(name, sqlType, true, None)
  }

  function Defaulted(name: string, sqlType: string, value: string): Column {
    Column(name, sqlType, false, Some(value))
  }

  function DecisionColumns(): seq<Column> {
    [Nullable("evaluation_id", "String"), Nullable("policy_resolution_id", "String"), Nullable("assessment_id", "String"),
     Defaulted("decision_conditions_triggered", "Text", "[]"), Defaulted("applicable_package_ids", "Text", "[]"),
     Defaulted("applicable_requirement_ids", "Text", "[]"), Defaulted("control_evaluation_ids", "Text", "[]"),
     Nullable("evidence_package_id", "String"), Nullable("evidence_package_hash", "String"), Nullable("assessment_hash", "String"),
     Nullable("policy_package_hash", "String"), Nullable("actor_hash", "String"), Nullable("intent_hash", "String"),
     Nullable("target_hash", "String"), Nullable("context_hash", "String"), Nullable("engine_version", "String"),
     Nullable("input_hash", "String"), Nullable("expires_at", "DateTime"), Nullable("prior_decision_id", "String"),
     Nullable("superseded_by_decision_id", "String"), Defaulted("supersession_status", "String", "CURRENT")]
  }

  function DecisionIndexes(): seq<string> {
    ["evaluation_id", "policy_resolution_id", "assessment_id", "evidence_package_id", "input_hash", "prior_decision_id",
     "superseded_by_decision_id"]
  }

  function AuthColumns(): seq<Column> {
    [Nullable("actor_id", "String"), Nullable("target_id", "String"), Nullable("authorized_action", "String"),
     Nullable("authorized_parameter_constraints", "Text"), Nullable("max_amount_minor", "BigInteger"),
     Nullable("max_amount_currency", "String"), Nullable("permitted_execution_system", "String"), Nullable("issued_at", "DateTime"),
     Nullable("nonce", "String"), Nullable("idempotency_key", "String"), Defaulted("one_time_use", "Boolean", "true"),
     Nullable("consumed_at", "DateTime"), Nullable("revoked_at", "DateTime"), Nullable("revocation_reason", "String"),
     Nullable("policy_package_hash", "String"), Nullable("assessment_hash", "String"), Nullable("evidence_package_hash", "String"),
     Nullable("decision_hash", "String"), Nullable("signer_key_id", "String"), Nullable("signature", "Text"),
     Nullable("authorization_hash", "String")]
  }

  function AuthIndexes(): seq<string> {
    ["actor_id", "target_id", "nonce", "idempotency_key", "authorization_hash"]
  }

  // ---------------------------------------------------------------- names

  function Names(cs: seq<Column>): (names: seq<string>)
    ensures |names| == |cs| && forall i :: 0 <= i < |cs| ==> names[i] == cs[i].name
  {
    seq(|cs|, i requires 0 <= i < |cs| => cs[i].name)
  }

  ghost predicate Distinct(names: seq<string>) {
    forall i, j :: 0 <= i < j < |names| ==> names[i] != names[j]
  }

  /** `ix_<table>_<column>`. */
  function IndexName(table: string, column: string): string {
    "ix_" + (table + ("_" + column))
  }

  lemma IndexNameInjective(table: string, c: string, d: string)
    requires IndexName(table, c) == IndexName(table, d)
    ensures c == d
  {
    assert IndexName(table, c)[3 + |table| + 1..] == c;
    assert IndexName(table, d)[3 + |table| + 1..] == d;
  }

  /** The two tables' index names start differently. */
  lemma IndexNamesApart(c: string, d: string)
    ensures IndexName(DECISIONS, c) != IndexName(AUTHORIZATIONS, d)
  {
    assert IndexName(DECISIONS, c)[3] == 'd' && IndexName(AUTHORIZATIONS, d)[3] == 'e';
  }

  /** A name's length and first letter: within either list of columns, no two names agree on both. */
  function LengthAndInitial(name: string): (nat, char)
    requires name != ""
  {
    (|name|, name[0])
  }

  function DecisionShapes(): seq<(nat, char)> {
    [(13, 'e'), (20, 'p'), (13, 'a'), (29, 'd'), (22, 'a'), (26, 'a'), (22, 'c'),
     (19, 'e'), (21, 'e'), (15, 'a'), (19, 'p'), (10, 'a'), (11, 'i'), (11, 't'),
     (12, 'c'), (14, 'e'), (10, 'i'), (10, 'e'), (17, 'p'), (25, 's'), (19, 's')]
  }

  function AuthShapes(): seq<(nat, char)> {
    [(8, 'a'), (9, 't'), (17, 'a'), (32, 'a'), (16, 'm'), (19, 'm'), (26, 'p'),
     (9, 'i'), (5, 'n'), (15, 'i'), (12, 'o'), (11, 'c'), (10, 'r'), (17, 'r'),
     (19, 'p'), (15, 'a'), (21, 'e'), (13, 'd'), (13, 's'), (9, 's'), (18, 'a')]
  }

  ghost predicate HaveShapes(cs: seq<Column>, shapes: seq<(nat, char)>) {
    |cs| == |shapes| && forall i :: 0 <= i < |cs| ==> cs[i].name != "" && LengthAndInitial(cs[i].name) == shapes[i]
  }

  /** The shapes from `lo` up to `hi` differ from all that come before them. */
  ghost predicate ShapesDiffer(shapes: seq<(nat, char)>, lo: nat, hi: nat) {
    hi <= |shapes| && forall i, j :: 0 <= i < j && lo <= j < hi ==> shapes[i] != shapes[j]
  }

  lemma DecisionColumnsHaveShapes()
    ensures HaveShapes(DecisionColumns(), DecisionShapes()) && |DecisionShapes()| == 21
  {
  }

  lemma AuthColumnsHaveShapes()
    ensures HaveShapes(AuthColumns(), AuthShapes()) && |AuthShapes()| == 21
  {
  }

  lemma DecisionShapesDifferAtFirst()
    ensures ShapesDiffer(DecisionShapes(), 0, 14)
  {
  }

  lemma DecisionShapesDifferAtLast()
    ensures ShapesDiffer(DecisionShapes(), 14, 21)
  {
  }

  lemma AuthShapesDifferAtFirst()
    ensures ShapesDiffer(AuthShapes(), 0, 14)
  {
  }

  lemma AuthShapesDifferAtLast()
    ensures ShapesDiffer(AuthShapes(), 14, 21)
  {
  }

  /** The column names of either list are distinct, because their shapes are. */
  lemma ColumnNamesDistinct()
    ensures |DecisionColumns()| == |AuthColumns()| == 21
    ensures Distinct(Names(DecisionColumns())) && Distinct(Names(AuthColumns()))
  {
    DecisionColumnsHaveShapes();
    AuthColumnsHaveShapes();
    DecisionShapesDifferAtFirst();
    DecisionShapesDifferAtLast();
    AuthShapesDifferAtFirst();
    AuthShapesDifferAtLast();
    hide DecisionColumns, AuthColumns, DecisionShapes, AuthShapes;
  }

  /** The columns that get an index are among the new ones. */
  lemma IndexedColumnsAreNew()
    ensures |DecisionIndexes()| == 7 && |AuthIndexes()| == 5
    ensures forall i :: 0 <= i < 7 ==> DecisionIndexes()[i] == DecisionColumns()[[0, 1, 2, 7, 16, 18, 19][i]].name
    ensures forall i :: 0 <= i < 5 ==> AuthIndexes()[i] == AuthColumns()[[0, 1, 8, 9, 20][i]].name
  {
  }

  lemma IndexedColumns()
    ensures Distinct(DecisionIndexes()) && Distinct(AuthIndexes())
    ensures DecisionIndexes() != [] && AuthIndexes() != []
    ensures forall c :: c in DecisionIndexes() ==> c in Names(DecisionColumns())
    ensures forall c :: c in AuthIndexes() ==> c in Names(AuthColumns())
  {
    IndexedColumnsAreNew();
    ColumnNamesDistinct();
    hide DecisionColumns, AuthColumns, DecisionIndexes, AuthIndexes;
    Selection(DecisionIndexes(), Names(DecisionColumns()), [0, 1, 2, 7, 16, 18, 19]);
    Selection(AuthIndexes(), Names(AuthColumns()), [0, 1, 8, 9, 20]);
  }

  /** An increasing selection from distinct names is distinct. */
  lemma Selection(some: seq<string>, all: seq<string>, at: seq<nat>)
    requires |at| == |some| && Distinct(all)
    requires forall i :: 0 <= i < |at| ==> at[i] < |all| && some[i] == all[at[i]]
    requires forall i, j :: 0 <= i < j < |at| ==> at[i] < at[j]
    ensures Distinct(some)
    ensures forall c :: c in some ==> c in all
  {
  }

  // ---------------------------------------------------------------- columns that are dropped

  /** The columns left when those of the given names are dropped. */
  function Kept(cs: seq<Column>, names: seq<string>): seq<Column> {
    Filter((c: Column) => c.name !in names, cs)
  }

  lemma {:induction false} KeptAll(cs: seq<Column>, names: seq<string>)
    requires forall n :: n in Names(cs) ==> n !in names
    ensures Kept(cs, names) == cs
  {
    if cs != [] {
      forall n | n in Names(cs[1..]) ensures n !in names {
        var i :| 0 <= i < |cs[1..]| && cs[1..][i].name == n;
        assert Names(cs)[i + 1] == n;
      }
      KeptAll(cs[1..], names);
      assert Names(cs)[0] == cs[0].name;
      assert [cs[0]] + cs[1..] == cs;
    }
  }

  lemma {:induction false} KeptNone(cs: seq<Column>, names: seq<string>)
    requires forall n :: n in Names(cs) ==> n in names
    ensures Kept(cs, names) == []
  {
    if cs != [] {
      forall n | n in Names(cs[1..]) ensures n in names {
        var i :| 0 <= i < |cs[1..]| && cs[1..][i].name == n;
        assert Names(cs)[i + 1] == n;
      }
      KeptNone(cs[1..], names);
      assert Names(cs)[0] == cs[0].name;
    }
  }

  /** Dropping columns from between others leaves the others. */
  lemma KeptAround(before: seq<Column>, dropped: seq<Column>, after: seq<Column>)
    requires forall n :: n in Names(before) ==> n !in Names(dropped)
    requires forall n :: n in Names(after) ==> n !in Names(dropped)
    ensures Kept(before + dropped + after, Names(dropped)) == before + after
  {
    var p := (c: Column) => c.name !in Names(dropped);
    FilterConcat(p, before + dropped, after);
    FilterConcat(p, before, dropped);
    KeptAll(before, Names(dropped));
    KeptAll(after, Names(dropped));
    KeptNone(dropped, Names(dropped));
    assert before + [] == before;
  }

  /** Dropping one more column. */
  lemma KeptOneMore(cs: seq<Column>, names: seq<string>, k: nat)
    requires k < |names|
    ensures Kept(Kept(cs, names[k + 1..]), [names[k]]) == Kept(cs, names[k..])
  {
    assert names[k..] == [names[k]] + names[k + 1..];
    FilterTwice((c: Column) => c.name !in names[k + 1..], (c: Column) => c.name !in [names[k]], (c: Column) => c.name !in names[k..], cs);
  }

  lemma KeptNames(cs: seq<Column>, names: seq<string>, n: string)
    ensures n in Names(Kept(cs, names)) <==> n in Names(cs) && n !in names
  {
    var kept := Kept(cs, names);
    if n in Names(kept) {
      var i :| 0 <= i < |kept| && kept[i].name == n;
      FilterMember((c: Column) => c.name !in names, cs, kept[i]);
      var j :| 0 <= j < |cs| && cs[j] == kept[i];
      assert Names(cs)[j] == n;
    }
    if n in Names(cs) && n !in names {
      var j :| 0 <= j < |cs| && cs[j].name == n;
      FilterMember((c: Column) => c.name !in names, cs, cs[j]);
      var i :| 0 <= i < |kept| && kept[i] == cs[j];
      assert Names(kept)[i] == n;
    }
  }

  // ---------------------------------------------------------------- a set of indexes

  function IndexNames(table: string, columns: seq<string>): set<string> {
    set c | c in columns :: IndexName(table, c)
  }

  /** The indexes the loop creates. */
  function NewIndexes(table: string, columns: seq<string>): (indexes: Indexes)
    ensures indexes.Keys == IndexNames(table, columns)
    ensures forall n :: n in indexes ==> indexes[n].table == table && indexes[n].column in columns && n == IndexName(table, indexes[n].column)
    decreases |columns|
  {
    if columns == [] then map[]
    else
      var c := columns[|columns| - 1];
      assert columns == columns[..|columns| - 1] + [c];
      NewIndexes(table, columns[..|columns| - 1])[IndexName(table, c) := Index(table, c)]
  }

  ghost predicate InUse(indexes: Indexes, table: string, column: string) {
    exists n :: n in indexes && indexes[n] == Index(table, column)
  }

  /** Every index is on a column that exists. */
  ghost predicate IndexesOnColumns(columns: Columns, indexes: Indexes) {
    forall n :: n in indexes ==> indexes[n].table in columns && indexes[n].column in Names(columns[indexes[n].table])
  }

  // ---------------------------------------------------------------- the schema

  class Schema {
    var columns: Columns
    var indexes: Indexes

    ghost predicate Valid()
      reads this
    {
      IndexesOnColumns(columns, indexes)
    }

    method AddColumn(table: string, c: Column) returns (error: Option<SchemaError>)
      modifies this`columns
      ensures error == None <==> table in old(columns) && c.name !in Names(old(columns)[table])
      ensures columns == if error == None then old(columns)[table := old(columns)[table] + [c]] else old(columns)
    {
      if table !in columns {
        return Some(NoSuchTable(table));
      }
      if c.name in Names(columns[table]) {
        return Some(DuplicateColumn(c.name));
      }
      columns := columns[table := columns[table] + [c]];
      return None;
    }

    method DropColumn(table: string, name: string) returns (error: Option<SchemaError>)
      modifies this`columns
      ensures error == None <==> table in old(columns) && name in Names(old(columns)[table]) && !InUse(indexes, table, name)
      ensures columns == if error == None then old(columns)[table := Kept(old(columns)[table], [name])] else old(columns)
    {
      if table !in columns {
        return Some(NoSuchTable(table));
      }
      if name !in Names(columns[table]) {
        return Some(NoSuchColumn(name));
      }
      if exists n :: n in indexes && indexes[n] == Index(table, name) {
        return Some(ColumnInUse(name));
      }
      columns := columns[table := Kept(columns[table], [name])];
      return None;
    }

    method CreateIndex(table: string, column: string) returns (error: Option<SchemaError>)
      modifies this`indexes
      ensures error == None <==>
              table in columns && column in Names(columns[table]) && IndexName(table, column) !in old(indexes)
      ensures indexes == if error == None then old(indexes)[IndexName(table, column) := Index(table, column)] else old(indexes)
    {
      if table !in columns {
        return Some(NoSuchTable(table));
      }
      if column !in Names(columns[table]) {
        return Some(NoSuchColumn(column));
      }
      if IndexName(table, column) in indexes {
        return Some(DuplicateIndex(IndexName(table, column)));
      }
      indexes := indexes[IndexName(table, column) := Index(table, column)];
      return None;
    }

    method DropIndex(name: string) returns (error: Option<SchemaError>)
      modifies this`indexes
      ensures error == None <==> name in old(indexes)
      ensures indexes == old(indexes) - {name}
    {
      if name !in indexes {
        assert indexes == indexes - {name};
        return Some(NoSuchIndex(name));
      }
      indexes := indexes - {name};
      return None;
    }

    /** `for column in ...: batch_op.add_column(column)`. */
    method AddColumns(table: string, cs: seq<Column>) returns (error: Option<SchemaError>)
      requires cs != [] && Distinct(Names(cs))
      modifies this`columns
      ensures error == None <==> table in old(columns) && forall n :: n in Names(cs) ==> n !in Names(old(columns)[table])
      ensures error == None ==> columns == old(columns)[table := old(columns)[table] + cs]
    {
      if table in columns {
        assert columns[table] + cs[..0] == columns[table];
        assert columns == columns[table := columns[table]];
      }
      for k := 0 to |cs|
        invariant k > 0 ==> table in old(columns)
        invariant table in old(columns) ==> columns == old(columns)[table := old(columns)[table] + cs[..k]]
        invariant table !in old(columns) ==> columns == old(columns)
        invariant table in old(columns) ==> forall i :: 0 <= i < k ==> cs[i].name !in Names(old(columns)[table])
      {
        ghost var base := if table in old(columns) then old(columns)[table] else [];
        NamesAfter(base, cs, k);
        error := AddColumn(table, cs[k]);
        if error != None {
          assert Names(cs)[k] == cs[k].name;
          return;
        }
        assert cs[..k + 1] == cs[..k] + [cs[k]];
        assert base + cs[..k + 1] == base + cs[..k] + [cs[k]];
      }
      assert cs[..|cs|] == cs;
      error := None;
    }

    /** `for column in reversed(...): batch_op.drop_column(column.name)`. */
    method DropColumns(table: string, names: seq<string>) returns (error: Option<SchemaError>)
      requires names != [] && Distinct(names)
      modifies this`columns
      ensures error == None <==>
              && table in old(columns)
              && forall n :: n in names ==> n in Names(old(columns)[table]) && !InUse(indexes, table, n)
      ensures error == None ==> columns == old(columns)[table := Kept(old(columns)[table], names)]
    {
      hide Kept;
      if table in columns {
        KeptAll(columns[table], []);
        assert names[|names|..] == [];
        assert columns == columns[table := columns[table]];
      }
      for k := |names| downto 0
        invariant k < |names| ==> table in old(columns)
        invariant table in old(columns) ==> columns == old(columns)[table := Kept(old(columns)[table], names[k..])]
        invariant table !in old(columns) ==> columns == old(columns)
        invariant table in old(columns) ==>
                  forall i :: k <= i < |names| ==> names[i] in Names(old(columns)[table]) && !InUse(indexes, table, names[i])
      {
        ghost var base := if table in old(columns) then old(columns)[table] else [];
        KeptNames(base, names[k + 1..], names[k]);
        assert names[k] !in names[k + 1..];
        error := DropColumn(table, names[k]);
        if error != None {
          return;
        }
        KeptOneMore(base, names, k);
      }
      assert names[0..] == names;
      error := None;
    }

    /** `for column_name in ...: batch_op.create_index(...)`. */
    method CreateIndexes(table: string, names: seq<string>) returns (error: Option<SchemaError>)
      requires names != [] && Distinct(names)
      modifies this`indexes
      ensures error == None <==>
              && table in columns
              && forall c :: c in names ==> c in Names(columns[table]) && IndexName(table, c) !in old(indexes)
      ensures error == None ==> indexes == old(indexes) + NewIndexes(table, names)
    {
      hide NewIndexes, IndexName;
      IndexesAfterNone(indexes, table, names);
      for k := 0 to |names|
        invariant indexes == IndexesAfter(old(indexes), table, names[..k])
        invariant k > 0 ==> table in columns
        invariant forall i :: 0 <= i < k ==> names[i] in Names(columns[table]) && IndexName(table, names[i]) !in old(indexes)
      {
        hide IndexesAfter;
        IndexesAfterStep(old(indexes), table, names, k);
        error := CreateIndex(table, names[k]);
        if error != None {
          return;
        }
      }
      assert names[..|names|] == names;
      error := None;
    }

    /** `for column_name in ...: batch_op.drop_index(...)`. */
    method DropIndexes(table: string, names: seq<string>) returns (error: Option<SchemaError>)
      requires Distinct(names)
      modifies this`indexes
      ensures error == None <==> forall c :: c in names ==> IndexName(table, c) in old(indexes)
      ensures error == None ==> indexes == old(indexes) - IndexNames(table, names)
    {
      for k := 0 to |names|
        invariant indexes == old(indexes) - IndexNames(table, names[..k])
        invariant forall i :: 0 <= i < k ==> IndexName(table, names[i]) in old(indexes)
      {
        NotYetIndexed(table, names, k);
        error := DropIndex(IndexName(table, names[k]));
        if error != None {
          return;
        }
        assert names[..k + 1] == names[..k] + [names[k]];
      }
      assert names[..|names|] == names;
      error := None;
    }

    /** One `batch_alter_table` block of the upgrade. */
    method UpgradeTable(table: string, cs: seq<Column>, names: seq<string>) returns (error: Option<SchemaError>)
      requires cs != [] && Distinct(Names(cs)) && names != [] && Distinct(names) && forall c :: c in names ==> c in Names(cs)
      modifies this
      ensures error == None <==> Room(old(columns), old(indexes), table, cs, names)
      ensures error == None ==> columns == old(columns)[table := old(columns)[table] + cs]
      ensures error == None ==> indexes == IndexesAfter(old(indexes), table, names)
    {
      hide IndexName, IndexNames, NewIndexes;
      error := AddColumns(table, cs);
      if error != None {
        return;
      }
      NamesOfBoth(old(columns)[table], cs);
      error := CreateIndexes(table, names);
    }

    /** One `batch_alter_table` block of the downgrade: indexes first, then columns from the last to the first. */
    method DowngradeTable(table: string, cs: seq<Column>, names: seq<string>) returns (error: Option<SchemaError>)
      requires cs != [] && Distinct(Names(cs)) && Distinct(names)
      modifies this
      ensures error == None <==> Droppable(old(columns), old(indexes), table, cs, names)
      ensures error == None ==> columns == old(columns)[table := Kept(old(columns)[table], Names(cs))]
      ensures error == None ==> indexes == old(indexes) - IndexNames(table, names)
    {
      hide IndexName, Kept;
      error := DropIndexes(table, names);
      if error != None {
        return;
      }
      error := DropColumns(table, Names(cs));
    }

    /** Succeeds exactly when both tables exist, none of the new columns is there yet, and no index name is taken. */
    method Upgrade() returns (error: Option<SchemaError>)
      modifies this
      ensures error == None <==>
              && Room(old(columns), old(indexes), DECISIONS, DecisionColumns(), DecisionIndexes())
              && Room(old(columns), old(indexes), AUTHORIZATIONS, AuthColumns(), AuthIndexes())
      ensures error == None ==> columns == Extended(old(columns), [], [])
      ensures error == None ==> indexes == Indexed(old(indexes))
    {
      ColumnNamesDistinct();
      IndexedColumns();
      TablesApart();
      hide DecisionColumns, AuthColumns, DecisionIndexes, AuthIndexes, IndexName, IndexNames, NewIndexes;
      error := UpgradeTable(DECISIONS, DecisionColumns(), DecisionIndexes());
      if error != None {
        return;
      }
      OtherTableKeepsRoom(old(indexes));
      error := UpgradeTable(AUTHORIZATIONS, AuthColumns(), AuthIndexes());
      if error == None {
        ExtendedFresh(old(columns));
      }
    }

    method Downgrade() returns (error: Option<SchemaError>)
      modifies this
      ensures error == None <==>
              && Droppable(old(columns), old(indexes), AUTHORIZATIONS, AuthColumns(), AuthIndexes())
              && Droppable(old(columns), old(indexes) - IndexNames(AUTHORIZATIONS, AuthIndexes()), DECISIONS, DecisionColumns(), DecisionIndexes())
      ensures error == None ==>
              columns == old(columns)[AUTHORIZATIONS := Kept(old(columns)[AUTHORIZATIONS], Names(AuthColumns()))]
                                     [DECISIONS := Kept(old(columns)[DECISIONS], Names(DecisionColumns()))]
      ensures error == None ==>
              indexes == old(indexes) - IndexNames(AUTHORIZATIONS, AuthIndexes()) - IndexNames(DECISIONS, DecisionIndexes())
    {
      ColumnNamesDistinct();
      IndexedColumns();
      TablesApart();
      hide DecisionColumns, AuthColumns, DecisionIndexes, AuthIndexes, IndexName, IndexNames, Kept;
      error := DowngradeTable(AUTHORIZATIONS, AuthColumns(), AuthIndexes());
      if error != None {
        return;
      }
      error := DowngradeTable(DECISIONS, DecisionColumns(), DecisionIndexes());
    }
  }

  lemma NamesAfter(base: seq<Column>, cs: seq<Column>, k: nat)
    requires k < |cs| && Distinct(Names(cs))
    ensures cs[k].name in Names(base + cs[..k]) <==> cs[k].name in Names(base)
  {
    assert Names(base + cs[..k]) == Names(base) + Names(cs)[..k];
    assert Names(cs)[k] !in Names(cs)[..k];
  }

  /** Among distinct columns, the next one's index name is not among those before. */
  lemma NotYetIndexed(table: string, names: seq<string>, k: nat)
    requires k < |names| && Distinct(names)
    ensures IndexName(table, names[k]) !in IndexNames(table, names[..k])
  {
    forall c | c in names[..k] ensures IndexName(table, c) != IndexName(table, names[k]) {
      if IndexName(table, c) == IndexName(table, names[k]) {
        IndexNameInjective(table, c, names[k]);
      }
    }
  }

  function IndexesAfter(indexes: Indexes, table: string, names: seq<string>): Indexes {
    indexes + NewIndexes(table, names)
  }

  lemma IndexesAfterNone(indexes: Indexes, table: string, names: seq<string>)
    ensures IndexesAfter(indexes, table, names[..0]) == indexes
  {
  }

  lemma IndexesAfterStep(indexes: Indexes, table: string, names: seq<string>, k: nat)
    requires k < |names| && Distinct(names)
    ensures IndexName(table, names[k]) in IndexesAfter(indexes, table, names[..k]) <==> IndexName(table, names[k]) in indexes
    ensures IndexesAfter(indexes, table, names[..k + 1])
         == IndexesAfter(indexes, table, names[..k])[IndexName(table, names[k]) := Index(table, names[k])]
  {
    hide IndexName, NewIndexes;
    NotYetIndexed(table, names, k);
    NewIndexesStep(table, names, k);
    AddedLast(indexes, NewIndexes(table, names[..k]), IndexName(table, names[k]), Index(table, names[k]));
  }

  lemma AddedLast(indexes: Indexes, added: Indexes, name: string, index: Index)
    ensures indexes + added[name := index] == (indexes + added)[name := index]
  {
  }

  lemma NewIndexesStep(table: string, names: seq<string>, k: nat)
    requires k < |names|
    ensures NewIndexes(table, names[..k + 1]) == NewIndexes(table, names[..k])[IndexName(table, names[k]) := Index(table, names[k])]
  {
    hide IndexName;
    assert names[..k + 1][..k] == names[..k];
  }

  // ---------------------------------------------------------------- the whole migration

  /** The table exists, has none of the new columns, and none of the new index names is taken. */
  ghost predicate Room(columns: Columns, indexes: Indexes, table: string, cs: seq<Column>, names: seq<string>) {
    && table in columns
    && (forall n :: n in Names(cs) ==> n !in Names(columns[table]))
    && (forall c :: c in names ==> IndexName(table, c) !in indexes)
  }

  /** The table has the columns, the indexes exist, and no other index uses one of the columns. */
  ghost predicate Droppable(columns: Columns, indexes: Indexes, table: string, cs: seq<Column>, names: seq<string>) {
    && table in columns
    && (forall c :: c in names ==> IndexName(table, c) in indexes)
    && (forall n :: n in Names(cs) ==> n in Names(columns[table]) && !InUse(indexes - IndexNames(table, names), table, n))
  }

  /** The new columns, with whatever was added to the two tables after them. */
  function Extended(columns: Columns, laterDecisions: seq<Column>, laterAuth: seq<Column>): Columns
    requires DECISIONS in columns && AUTHORIZATIONS in columns
  {
    columns[DECISIONS := columns[DECISIONS] + DecisionColumns() + laterDecisions]
           [AUTHORIZATIONS := columns[AUTHORIZATIONS] + AuthColumns() + laterAuth]
  }

  function Indexed(indexes: Indexes): Indexes {
    IndexesAfter(IndexesAfter(indexes, DECISIONS, DecisionIndexes()), AUTHORIZATIONS, AuthIndexes())
  }

  lemma TablesApart()
    ensures DECISIONS != AUTHORIZATIONS
  {
  }

  lemma NamesOfBoth(a: seq<Column>, b: seq<Column>)
    ensures Names(a + b) == Names(a) + Names(b)
  {
  }

  lemma ExtendedFresh(columns: Columns)
    requires DECISIONS in columns && AUTHORIZATIONS in columns
    ensures Extended(columns, [], [])
         == columns[DECISIONS := columns[DECISIONS] + DecisionColumns()][AUTHORIZATIONS := columns[AUTHORIZATIONS] + AuthColumns()]
  {
    hide DecisionColumns, AuthColumns;
    assert columns[DECISIONS] + DecisionColumns() + [] == columns[DECISIONS] + DecisionColumns();
    assert columns[AUTHORIZATIONS] + AuthColumns() + [] == columns[AUTHORIZATIONS] + AuthColumns();
  }

  /** Indexing one table takes no index name of the other. */
  lemma OtherTableKeepsRoom(indexes: Indexes)
    ensures forall c :: IndexName(AUTHORIZATIONS, c) in IndexesAfter(indexes, DECISIONS, DecisionIndexes()) <==> IndexName(AUTHORIZATIONS, c) in indexes
  {
    hide DecisionIndexes, NewIndexes, IndexName;
    forall c ensures IndexName(AUTHORIZATIONS, c) !in IndexNames(DECISIONS, DecisionIndexes()) {
      forall d | d in DecisionIndexes() ensures IndexName(DECISIONS, d) != IndexName(AUTHORIZATIONS, c) {
        IndexNamesApart(d, c);
      }
    }
  }

  // ---------------------------------------------------------------- undoing it

  /** Neither the earlier indexes nor another table's are on a new column. */
  lemma NotInUse(columns: Columns, indexes: Indexes, others: Indexes, table: string, n: string)
    requires IndexesOnColumns(columns, indexes) && table in columns && n !in Names(columns[table])
    requires forall m :: m in others ==> others[m].table != table
    ensures !InUse(indexes + others, table, n)
  {
  }

  /** Another table's new indexes, as far as dropping this table's is concerned. */
  ghost predicate OtherIndexes(others: Indexes, table: string, names: seq<string>) {
    (forall n :: n in others ==> others[n].table != table) && others.Keys !! IndexNames(table, names)
  }

  lemma IndexesUndone(indexes: Indexes, others: Indexes, table: string, names: seq<string>)
    requires forall c :: c in names ==> IndexName(table, c) !in indexes
    requires OtherIndexes(others, table, names)
    ensures IndexesAfter(indexes, table, names) + others - IndexNames(table, names) == indexes + others
    ensures forall c :: c in names ==> IndexName(table, c) in IndexesAfter(indexes, table, names) + others
  {
  }

  /** What a table becomes when it gets new columns and indexes, and others after them, can be dropped down to the others. */
  lemma TableUndone(columns: Columns, indexes: Indexes, others: Indexes, table: string, cs: seq<Column>, names: seq<string>,
                    later: seq<Column>, columns': Columns)
    requires IndexesOnColumns(columns, indexes) && Room(columns, indexes, table, cs, names)
    requires table in columns' && columns'[table] == columns[table] + cs + later
    requires forall n :: n in Names(later) ==> n !in Names(cs)
    requires OtherIndexes(others, table, names)
    ensures Droppable(columns', IndexesAfter(indexes, table, names) + others, table, cs, names)
    ensures Kept(columns'[table], Names(cs)) == columns[table] + later
    ensures IndexesAfter(indexes, table, names) + others - IndexNames(table, names) == indexes + others
  {
    KeptAround(columns[table], cs, later);
    IndexesUndone(indexes, others, table, names);
    hide IndexName, IndexNames, Kept, IndexesAfter, InUse;
    NamesOfBoth(columns[table] + cs, later);
    NamesOfBoth(columns[table], cs);
    forall n | n in Names(cs) ensures !InUse(indexes + others, table, n) {
      NotInUse(columns, indexes, others, table, n);
    }
  }

  /** Everything the upgrade did is undone, whatever columns were added to the two tables since. */
  lemma UpgradeUndone(columns: Columns, indexes: Indexes, laterDecisions: seq<Column>, laterAuth: seq<Column>)
    requires IndexesOnColumns(columns, indexes)
    requires Room(columns, indexes, DECISIONS, DecisionColumns(), DecisionIndexes())
    requires Room(columns, indexes, AUTHORIZATIONS, AuthColumns(), AuthIndexes())
    requires forall n :: n in Names(laterDecisions) ==> n !in Names(DecisionColumns())
    requires forall n :: n in Names(laterAuth) ==> n !in Names(AuthColumns())
    ensures var columns', indexes' := Extended(columns, laterDecisions, laterAuth), Indexed(indexes);
            && Droppable(columns', indexes', AUTHORIZATIONS, AuthColumns(), AuthIndexes())
            && Droppable(columns', indexes' - IndexNames(AUTHORIZATIONS, AuthIndexes()), DECISIONS, DecisionColumns(), DecisionIndexes())
            && Kept(columns'[AUTHORIZATIONS], Names(AuthColumns())) == columns[AUTHORIZATIONS] + laterAuth
            && Kept(columns'[DECISIONS], Names(DecisionColumns())) == columns[DECISIONS] + laterDecisions
            && indexes' - IndexNames(AUTHORIZATIONS, AuthIndexes()) - IndexNames(DECISIONS, DecisionIndexes()) == indexes
  {
    TablesApart();
    hide DecisionColumns, AuthColumns, DecisionIndexes, AuthIndexes, IndexName, IndexNames, NewIndexes, IndexesAfter, Indexed;
    hide Kept, OtherIndexes, Droppable, IndexesOnColumns, Names;
    var columns', indexes' := Extended(columns, laterDecisions, laterAuth), Indexed(indexes);
    var decisionIndexes := NewIndexes(DECISIONS, DecisionIndexes());
    IndexesRearranged(indexes);
    AuthIndexesAreOthers();
    NothingElse(indexes, DECISIONS, DecisionIndexes());
    assert DECISIONS in columns' && AUTHORIZATIONS in columns';
    assert columns'[DECISIONS] == columns[DECISIONS] + DecisionColumns() + laterDecisions;
    assert columns'[AUTHORIZATIONS] == columns[AUTHORIZATIONS] + AuthColumns() + laterAuth;
    hide *;
    TableUndone(columns, indexes, decisionIndexes, AUTHORIZATIONS, AuthColumns(), AuthIndexes(), laterAuth, columns');
    TableUndone(columns, indexes, map[], DECISIONS, DecisionColumns(), DecisionIndexes(), laterDecisions, columns');
  }

  lemma NothingElse(indexes: Indexes, table: string, names: seq<string>)
    ensures OtherIndexes(map[], table, names)
    ensures IndexesAfter(indexes, table, names) + map[] == indexes + NewIndexes(table, names) && indexes + map[] == indexes
  {
  }

  lemma AuthIndexesAreOthers()
    ensures OtherIndexes(NewIndexes(DECISIONS, DecisionIndexes()), AUTHORIZATIONS, AuthIndexes())
  {
    TablesApart();
    hide DecisionIndexes, AuthIndexes, IndexName, NewIndexes;
    forall c, d ensures IndexName(DECISIONS, c) != IndexName(AUTHORIZATIONS, d) {
      IndexNamesApart(c, d);
    }
  }

  /** The two tables' indexes can be thought of as added in either order. */
  lemma IndexesRearranged(indexes: Indexes)
    ensures Indexed(indexes) == IndexesAfter(indexes, AUTHORIZATIONS, AuthIndexes()) + NewIndexes(DECISIONS, DecisionIndexes())
  {
    AuthIndexesAreOthers();
    hide DecisionIndexes, AuthIndexes, IndexName, NewIndexes;
  }

  lemma RoomMeansTables(columns: Columns, indexes: Indexes)
    ensures Room(columns, indexes, DECISIONS, DecisionColumns(), DecisionIndexes()) ==> DECISIONS in columns
    ensures Room(columns, indexes, AUTHORIZATIONS, AuthColumns(), AuthIndexes()) ==> AUTHORIZATIONS in columns
  {
  }

  /**
   Upgrade, further columns added by later migrations, downgrade: the downgrade succeeds whenever the
   steps before it did, and leaves exactly the columns there were, in their order, followed by the
   later ones, and exactly the indexes there were.
   */
  method UpgradeThenDowngrade(schema: Schema, laterDecisions: seq<Column>, laterAuth: seq<Column>) returns (error: Option<SchemaError>)
    requires schema.Valid() && Distinct(Names(laterDecisions)) && Distinct(Names(laterAuth))
    modifies schema
    ensures error == None <==>
            && Room(old(schema.columns), old(schema.indexes), DECISIONS, DecisionColumns(), DecisionIndexes())
            && Room(old(schema.columns), old(schema.indexes), AUTHORIZATIONS, AuthColumns(), AuthIndexes())
            && (forall n :: n in Names(laterDecisions) ==> n !in Names(old(schema.columns)[DECISIONS] + DecisionColumns()))
            && (forall n :: n in Names(laterAuth) ==> n !in Names(old(schema.columns)[AUTHORIZATIONS] + AuthColumns()))
    ensures error == None ==>
            schema.columns == old(schema.columns)[DECISIONS := old(schema.columns)[DECISIONS] + laterDecisions]
                                                 [AUTHORIZATIONS := old(schema.columns)[AUTHORIZATIONS] + laterAuth]
    ensures error == None && laterDecisions == [] && laterAuth == [] ==> schema.columns == old(schema.columns)
    ensures error == None ==> schema.indexes == old(schema.indexes)
  {
    TablesApart();
    hide DecisionColumns, AuthColumns, DecisionIndexes, AuthIndexes, IndexName, IndexNames, Kept, Indexed, Room, Droppable, IndexesAfter, NewIndexes;
    ghost var columns, indexes := schema.columns, schema.indexes;
    RoomMeansTables(columns, indexes);
    error := schema.Upgrade();
    if error != None {
      return;
    }
    NamesOfBoth(columns[DECISIONS], DecisionColumns());
    NamesOfBoth(columns[AUTHORIZATIONS], AuthColumns());
    ExtendedFresh(columns);
    assert schema.columns == Extended(columns, [], []);
    if laterDecisions != [] {
      error := schema.AddColumns(DECISIONS, laterDecisions);
      if error != None {
        return;
      }
    }
    assert schema.columns == Extended(columns, laterDecisions, []);
    if laterAuth != [] {
      error := schema.AddColumns(AUTHORIZATIONS, laterAuth);
      if error != None {
        return;
      }
    }
    assert schema.columns == Extended(columns, laterDecisions, laterAuth);
    UpgradeUndone(columns, indexes, laterDecisions, laterAuth);
    error := schema.Downgrade();
    assert columns[DECISIONS] + [] == columns[DECISIONS] && columns[AUTHORIZATIONS] + [] == columns[AUTHORIZATIONS];
  }
}
