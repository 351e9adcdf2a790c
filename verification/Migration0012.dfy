/**
 Migration `0012_organizations`: the tenant registry and the move of the pilot's rows from the
 default organization to the pilot's own.
 */
module Migration0012 {
  import opened Wrappers
  import opened Organizations

  const DEFAULT_ORG := "default-org"
  const PILOT_ORG := "securerob-pilot"
  const GATEWAY := "securerob-perception-gateway"
  const EVIDENCE_SOURCES := "evidence_sources"

  /** The tables that move as a whole. */
  function PilotTables(): seq<string> {
    ["actor_identities", "applicability_evaluations", "applicable_control_sets", "assessments",
     "canonical_evidence_packages", "control_evaluations", "decisions", "evidence_collection_jobs",
     "evidence_orchestration_plans", "evidence_requirement_sets", "evidence_sufficiency_results",
     "evidence_validation_results", "executable_governance_packages", "execution_authorizations",
     "governance_evaluations", "intents", "normalized_evidence", "operational_contexts",
     "policy_resolutions", "raw_evidence", "targets"]
  }

  /** A row: its tenant, its `connector_id` where the table has one, and everything else in it. */
  datatype Row = Row(organizationId: string, connectorId: Option<string>, others: map<string, string>)

  datatype Organization = Organization(organizationId: string, organizationName: string, status: string)

  type Tables = map<string, seq<Row>>

  datatype MigrationError = TableExists(name: string) | NoSuchTable(name: string)

  /** The two rows `bulk_insert` writes. */
  function Seeded(): seq<Organization> {
    [Organization(DEFAULT_ORG, "Default Organization", "ACTIVE"), Organization(PILOT_ORG, "SecureRob Pilot", "ACTIVE")]
  }

  // ---------------------------------------------------------------- one UPDATE statement

  /** The `WHERE` clause: the tenant, and for the mixed registry the gateway's connector. */
  predicate Selected(r: Row, org: string, gatewayOnly: bool) {
    r.organizationId == org && (gatewayOnly ==> r.connectorId == Some(GATEWAY))
  }

  function MoveRow(r: Row, from: string, to: string, gatewayOnly: bool): Row {
    if Selected(r, from, gatewayOnly) then r.(organizationId := to) else r
  }

  function Move(rows: seq<Row>, from: string, to: string, gatewayOnly: bool): (moved: seq<Row>)
    ensures |moved| == |rows|
    ensures forall i :: 0 <= i < |rows| ==> moved[i] == MoveRow(rows[i], from, to, gatewayOnly)
  {
    seq(|rows|, i requires 0 <= i < |rows| => MoveRow(rows[i], from, to, gatewayOnly))
  }

  /** The tables with the rows of the first `k` pilot tables moved. */
  function MovedFirst(tables: Tables, k: nat, from: string, to: string): (moved: Tables)
    requires k <= |PilotTables()|
    ensures moved.Keys == tables.Keys
  {
    map t | t in tables :: if t in PilotTables()[..k] then Move(tables[t], from, to, false) else tables[t]
  }

  function GatewayMoved(tables: Tables, from: string, to: string): (moved: Tables)
    ensures moved.Keys == tables.Keys
  {
    map t | t in tables :: if t == EVIDENCE_SOURCES then Move(tables[t], from, to, true) else tables[t]
  }

  /** Every table with its rows moved: all of a pilot table's, the gateway's of the evidence sources, no other. */
  function Moved(tables: Tables, from: string, to: string): (moved: Tables)
    ensures moved.Keys == tables.Keys
  {
    map t | t in tables ::
      if t in PilotTables() then Move(tables[t], from, to, false)
      else if t == EVIDENCE_SOURCES then Move(tables[t], from, to, true)
      else tables[t]
  }

  /** The error names a table that was needed and did not exist. */
  predicate MissingTable(tables: Tables, error: Option<MigrationError>) {
    error.Some? && error.value.NoSuchTable? && error.value.name !in tables
    && (error.value.name in PilotTables() || error.value.name == EVIDENCE_SOURCES)
  }

  ghost predicate Complete(tables: Tables) {
    EVIDENCE_SOURCES in tables && forall i :: 0 <= i < |PilotTables()| ==> PilotTables()[i] in tables
  }

  lemma EvidenceSourcesIsNoPilotTable()
    ensures EVIDENCE_SOURCES !in PilotTables()
  {
  }

  lemma MoveTwice(rows: seq<Row>, from: string, to: string, gatewayOnly: bool)
    requires from != to
    ensures Move(Move(rows, from, to, gatewayOnly), from, to, gatewayOnly) == Move(rows, from, to, gatewayOnly)
  {
  }

  /** Updating pilot table `k` after the ones before it. */
  lemma MovedOneMore(tables: Tables, k: nat, from: string, to: string)
    requires k < |PilotTables()| && PilotTables()[k] in tables && from != to
    ensures var so, name := MovedFirst(tables, k, from, to), PilotTables()[k];
            so[name := Move(so[name], from, to, false)] == MovedFirst(tables, k + 1, from, to)
  {
    hide PilotTables, Move;
    var names := PilotTables();
    var so, name := MovedFirst(tables, k, from, to), names[k];
    assert names[..k + 1] == names[..k] + [name];
    MoveTwice(tables[name], from, to, false);
  }

  /** The two kinds of update commute: together they are `Moved`, whichever comes first. */
  lemma MovedTogether(tables: Tables, from: string, to: string)
    ensures GatewayMoved(MovedFirst(tables, |PilotTables()|, from, to), from, to) == Moved(tables, from, to)
    ensures MovedFirst(GatewayMoved(tables, from, to), |PilotTables()|, from, to) == Moved(tables, from, to)
  {
    EvidenceSourcesIsNoPilotTable();
    hide PilotTables, Move;
    assert PilotTables()[..|PilotTables()|] == PilotTables();
  }

  /** What a migration that failed half way leaves: each table as it was or as it was to become. */
  ghost predicate PartlyMoved(before: Tables, after: Tables, from: string, to: string) {
    && after.Keys == before.Keys
    && forall t :: t in before ==> after[t] == before[t] || after[t] == Moved(before, from, to)[t]
  }

  lemma FirstArePart(tables: Tables, k: nat, from: string, to: string)
    requires k <= |PilotTables()|
    ensures PartlyMoved(tables, MovedFirst(tables, k, from, to), from, to)
  {
  }

  /** A partial move after the gateway's rows have moved is still a partial move. */
  lemma GatewayThenPart(before: Tables, after: Tables, from: string, to: string)
    requires from != to && PartlyMoved(GatewayMoved(before, from, to), after, from, to)
    ensures PartlyMoved(before, after, from, to)
  {
    EvidenceSourcesIsNoPilotTable();
    hide PilotTables, Move;
    var so := GatewayMoved(before, from, to);
    if EVIDENCE_SOURCES in before {
      MoveTwice(before[EVIDENCE_SOURCES], from, to, true);
    }
    forall t | t in before ensures after[t] == before[t] || after[t] == Moved(before, from, to)[t] {
      assert after[t] == so[t] || after[t] == Moved(so, from, to)[t];
    }
  }

  // ---------------------------------------------------------------- the migration

  class Database {
    var tables: Tables
    /** The `organizations` table, when there is one. */
    var organizations: Option<seq<Organization>>

    constructor (tables: Tables, organizations: Option<seq<Organization>>)
      ensures this.tables == tables && this.organizations == organizations
    {
      this.tables, this.organizations := tables, organizations;
    }

    /** `table.update().where(...).values(organization_id=to)`. */
    method Update(name: string, from: string, to: string, gatewayOnly: bool) returns (error: Option<MigrationError>)
      modifies this`tables
      ensures error == if name in old(tables) then None else Some(NoSuchTable(name))
      ensures tables == if name in old(tables) then old(tables)[name := Move(old(tables)[name], from, to, gatewayOnly)] else old(tables)
    {
      if name !in tables {
        return Some(NoSuchTable(name));
      }
      tables := tables[name := Move(tables[name], from, to, gatewayOnly)];
      return None;
    }

    /** The loop over the pilot tables; it stops at the first one that does not exist. */
    method UpdatePilotTables(from: string, to: string) returns (error: Option<MigrationError>)
      requires from != to
      modifies this`tables
      ensures error == None <==> forall i :: 0 <= i < |PilotTables()| ==> PilotTables()[i] in old(tables)
      ensures error == None ==> tables == MovedFirst(old(tables), |PilotTables()|, from, to)
      ensures error != None ==> MissingTable(old(tables), error) && PartlyMoved(old(tables), tables, from, to)
    {
      hide PilotTables, MovedFirst, Move;
      var names := PilotTables();
      MovedNone(tables, from, to);
      for k := 0 to |names|
        invariant tables == MovedFirst(old(tables), k, from, to)
        invariant forall i :: 0 <= i < k ==> names[i] in old(tables)
      {
        FirstArePart(old(tables), k, from, to);
        error := Update(names[k], from, to, false);
        if error != None {
          return;
        }
        MovedOneMore(old(tables), k, from, to);
      }
      error := None;
    }

    /** Succeeds exactly when there was no registry yet and every table it updates exists. */
    method Upgrade() returns (error: Option<MigrationError>)
      modifies this
      ensures error == None <==> old(organizations) == None && Complete(old(tables))
      ensures error == None ==> tables == Moved(old(tables), DEFAULT_ORG, PILOT_ORG) && organizations == Some(Seeded())
      ensures old(organizations) != None ==> error == Some(TableExists("organizations")) && tables == old(tables) && organizations == old(organizations)
      ensures old(organizations) == None && error != None ==>
              MissingTable(old(tables), error) && PartlyMoved(old(tables), tables, DEFAULT_ORG, PILOT_ORG) && organizations == Some(Seeded())
    {
      hide PilotTables, MovedFirst, Move;
      if organizations != None {
        return Some(TableExists("organizations"));
      }
      organizations := Some(Seeded());
      ghost var before := tables;
      error := UpdatePilotTables(DEFAULT_ORG, PILOT_ORG);
      if error != None {
        return;
      }
      assert tables.Keys == before.Keys;
      ghost var so := tables;
      FirstArePart(before, |PilotTables()|, DEFAULT_ORG, PILOT_ORG);
      error := Update(EVIDENCE_SOURCES, DEFAULT_ORG, PILOT_ORG, true);
      assert error == None ==> tables == GatewayMoved(so, DEFAULT_ORG, PILOT_ORG);
      MovedTogether(before, DEFAULT_ORG, PILOT_ORG);
    }

    /** Succeeds exactly when there is a registry to drop and every table it updates exists. */
    method Downgrade() returns (error: Option<MigrationError>)
      modifies this
      ensures error == None <==> old(organizations) != None && Complete(old(tables))
      ensures error == None ==> tables == Moved(old(tables), PILOT_ORG, DEFAULT_ORG) && organizations == None
      ensures error != None ==> PartlyMoved(old(tables), tables, PILOT_ORG, DEFAULT_ORG) && organizations == old(organizations)
    {
      hide PilotTables, MovedFirst, Move;
      ghost var before := tables;
      error := Update(EVIDENCE_SOURCES, PILOT_ORG, DEFAULT_ORG, true);
      if error != None {
        return;
      }
      assert tables == GatewayMoved(before, PILOT_ORG, DEFAULT_ORG);
      error := UpdatePilotTables(PILOT_ORG, DEFAULT_ORG);
      if error != None {
        GatewayThenPart(before, tables, PILOT_ORG, DEFAULT_ORG);
        return;
      }
      MovedTogether(before, PILOT_ORG, DEFAULT_ORG);
      if organizations == None {
        return Some(NoSuchTable("organizations"));
      }
      organizations := None;
    }
  }

  lemma MovedNone(tables: Tables, from: string, to: string)
    ensures MovedFirst(tables, 0, from, to) == tables
  {
  }

  // ---------------------------------------------------------------- what the upgrade changes

  /** The rows the upgrade takes from the default organization. */
  predicate Moves(t: string, r: Row, org: string) {
    && r.organizationId == org
    && (t in PilotTables() || (t == EVIDENCE_SOURCES && r.connectorId == Some(GATEWAY)))
  }

  /**
   Row by row, in every table: no row is added, dropped or reordered, nothing but the tenant of a row
   changes, and the tenant changes for exactly the rows the migration is about.
   */
  lemma OnlyTenantsChange(tables: Tables, t: string, i: nat)
    requires t in tables && i < |tables[t]|
    ensures var moved, r := Moved(tables, DEFAULT_ORG, PILOT_ORG), tables[t][i];
            && moved.Keys == tables.Keys && |moved[t]| == |tables[t]|
            && moved[t][i].(organizationId := r.organizationId) == r
            && moved[t][i].organizationId == (if Moves(t, r, DEFAULT_ORG) then PILOT_ORG else r.organizationId)
  {
    EvidenceSourcesIsNoPilotTable();
    hide PilotTables;
  }

  /** The registry as the tenant gate reads it. */
  function Registry(organizations: seq<Organization>): map<string, string> {
    if organizations == [] then map[]
    else
      var last := organizations[|organizations| - 1];
      Registry(organizations[..|organizations| - 1])[last.organizationId := last.status]
  }

  /** The tenant gate lets exactly the two seeded tenants pass after the upgrade. */
  lemma SeededTenantsPass(org: string)
    ensures Refusal(Registry(Seeded()), org) == None <==> org in {"default-org", "securerob-pilot"}
  {
    var one := [Organization(DEFAULT_ORG, "Default Organization", "ACTIVE")];
    assert Seeded()[..1] == one && one[..0] == [];
    assert Registry(one) == map[][DEFAULT_ORG := "ACTIVE"];
    assert Registry(Seeded()) == Registry(one)[PILOT_ORG := "ACTIVE"];
    assert |DEFAULT_ORG| == 11 && |PILOT_ORG| == 15;
  }

  /** The upgrade leaves no row of the default or the pilot organization behind the tenant gate, and gives away no other tenant's row. */
  lemma RowsStayReachable(tables: Tables, t: string, i: nat)
    requires t in tables && i < |tables[t]|
    ensures |Moved(tables, DEFAULT_ORG, PILOT_ORG)[t]| == |tables[t]|
    ensures var before, after := tables[t][i].organizationId, Moved(tables, DEFAULT_ORG, PILOT_ORG)[t][i].organizationId;
            if before in {"default-org", "securerob-pilot"} then Refusal(Registry(Seeded()), after) == None else after == before
  {
    hide PilotTables, Moved, Registry, Seeded, Refusal;
    OnlyTenantsChange(tables, t, i);
    SeededTenantsPass(DEFAULT_ORG);
    SeededTenantsPass(PILOT_ORG);
  }

  // ---------------------------------------------------------------- undoing it

  /** No row the migration is about belongs to `org`. */
  ghost predicate NoneOf(tables: Tables, org: string) {
    forall t, i :: t in tables && 0 <= i < |tables[t]| ==> !Moves(t, tables[t][i], org)
  }

  lemma MovedThere(tables: Tables, t: string, from: string, to: string, i: nat)
    requires t in tables && i < |tables[t]|
    ensures |Moved(tables, from, to)[t]| == |tables[t]|
    ensures Moved(tables, from, to)[t][i] == if Moves(t, tables[t][i], from) then tables[t][i].(organizationId := to) else tables[t][i]
  {
    EvidenceSourcesIsNoPilotTable();
    hide PilotTables;
  }

  lemma MovedBack(tables: Tables, t: string, from: string, to: string, i: nat)
    requires t in tables && i < |tables[t]| && from != to
    ensures |Moved(Moved(tables, from, to), to, from)[t]| == |tables[t]|
    ensures Moved(Moved(tables, from, to), to, from)[t][i] == if Moves(t, tables[t][i], to) then tables[t][i].(organizationId := from) else tables[t][i]
  {
    hide PilotTables, Moved;
    MovedThere(tables, t, from, to, i);
    MovedThere(Moved(tables, from, to), t, to, from, i);
  }

  /** Moving rows one way and back is the identity exactly when the destination held none of them before. */
  lemma MoveUndoneIff(tables: Tables, from: string, to: string)
    requires from != to
    ensures Moved(Moved(tables, from, to), to, from) == tables <==> NoneOf(tables, to)
  {
    var back := Moved(Moved(tables, from, to), to, from);
    assert back.Keys == tables.Keys;
    hide PilotTables, Moved;
    forall t, i | t in tables && 0 <= i < |tables[t]|
      ensures |back[t]| == |tables[t]| && (back[t][i] == tables[t][i] <==> !Moves(t, tables[t][i], to)) {
      MovedBack(tables, t, from, to, i);
    }
    forall t | t in tables ensures |back[t]| == |tables[t]| {
      MovedSize(tables, t, from, to);
      MovedSize(Moved(tables, from, to), t, to, from);
    }
    if NoneOf(tables, to) {
      forall t | t in tables ensures back[t] == tables[t] {
      }
    }
  }

  lemma MovedSize(tables: Tables, t: string, from: string, to: string)
    requires t in tables
    ensures t in Moved(tables, from, to) && |Moved(tables, from, to)[t]| == |tables[t]|
  {
    hide PilotTables;
  }

  /**
   Upgrading and downgrading a database that had no registry: both steps succeed on exactly the
   databases that have every table, and they restore the database exactly when no pilot table held a
   row of the pilot organization and the evidence sources no gateway row of it.
   */
  method UpgradeThenDowngrade(db: Database) returns (error: Option<MigrationError>)
    requires db.organizations == None
    modifies db
    ensures error == None <==> Complete(old(db.tables))
    ensures error == None ==> db.organizations == None
    ensures error == None ==> (db.tables == old(db.tables) <==> NoneOf(old(db.tables), PILOT_ORG))
  {
    hide PilotTables, Moved;
    error := db.Upgrade();
    if error == None {
      ghost var upgraded := db.tables;
      MoveUndoneIff(old(db.tables), DEFAULT_ORG, PILOT_ORG);
      assert upgraded.Keys == old(db.tables).Keys;
      error := db.Downgrade();
    }
  }

  /** A pilot row written before the upgrade comes back as a default one, whichever pilot table holds it. */
  lemma EarlierPilotRowIsLost(t: string, r: Row)
    requires t in PilotTables() && r.organizationId == PILOT_ORG
    ensures Moved(Moved(map[t := [r]], DEFAULT_ORG, PILOT_ORG), PILOT_ORG, DEFAULT_ORG) == map[t := [r.(organizationId := DEFAULT_ORG)]]
  {
    hide PilotTables, Moved;
    var tables: Tables := map[t := [r]];
    MovedBack(tables, t, DEFAULT_ORG, PILOT_ORG, 0);
    MovedSize(tables, t, DEFAULT_ORG, PILOT_ORG);
    MovedSize(Moved(tables, DEFAULT_ORG, PILOT_ORG), t, PILOT_ORG, DEFAULT_ORG);
    var back := Moved(Moved(tables, DEFAULT_ORG, PILOT_ORG), PILOT_ORG, DEFAULT_ORG);
    assert back.Keys == {t} && back[t] == [r.(organizationId := DEFAULT_ORG)];
  }
}
