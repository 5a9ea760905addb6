/**
  The four relations of the control-plane database with the constraints of MIGRATION_V1
  (crates/control-plane-sqlite/src/lib.rs): primary keys, UNIQUE columns, immediate foreign
  keys, one ON DELETE CASCADE and one ON DELETE RESTRICT.
 */
module SnapshotTables {
  import opened Wrappers

  datatype Row2 = Row2(commandId: string, text: string)
  datatype PendingRow = PendingRow(deviceId: string, position: int, json: string)

  /** Each relation by its primary key; result and claim rows hold a command id and a text column. */
  datatype Tables = Tables(
    devices: map<string, string>,
    results: map<string, Row2>,
    claims: map<string, Row2>,
    pending: map<string, PendingRow>)

  datatype Statement =
    | DeletePending(commandId: string)
    | DeleteClaim(scope: string)
    | DeleteResult(scope: string)
    | DeleteDevice(nodeId: string)
    | UpsertDevice(nodeId: string, json: string)
    | InsertResult(scope: string, row: Row2)
    | InsertClaim(scope: string, row: Row2)
    | InsertPending(commandId: string, queued: PendingRow)

  datatype ConstraintError = CheckFailed | PrimaryKeyTaken | UniqueTaken | ForeignKeyMissing | Restricted

  predicate HasResultFor(t: Tables, commandId: string) {
    exists s | s in t.results :: t.results[s].commandId == commandId
  }

  ghost predicate DevicesIntact(t: Tables, json: string -> bool) {
    forall n | n in t.devices :: n != "" && json(t.devices[n])
  }

  ghost predicate ResultsIntact(t: Tables, json: string -> bool) {
    && (forall s | s in t.results :: s != "" && t.results[s].commandId != "" && json(t.results[s].text))
    && (forall s, s' | s in t.results && s' in t.results
                       && t.results[s].commandId == t.results[s'].commandId :: s == s')
  }

  ghost predicate ClaimsIntact(t: Tables) {
    forall s | s in t.claims ::
      && s != "" && t.claims[s].commandId != "" && t.claims[s].text != ""
      && s in t.results && t.results[s].commandId == t.claims[s].commandId
  }

  ghost predicate PendingRowsIntact(t: Tables, json: string -> bool) {
    && (forall id | id in t.pending ::
          id != "" && t.pending[id].deviceId != "" && t.pending[id].position >= 0 && json(t.pending[id].json))
    && (forall id, id' | id in t.pending && id' in t.pending
                         && t.pending[id].deviceId == t.pending[id'].deviceId
                         && t.pending[id].position == t.pending[id'].position :: id == id')
  }

  ghost predicate PendingReferencesIntact(t: Tables) {
    forall id | id in t.pending :: HasResultFor(t, id)
  }

  /** What every committed database satisfies. */
  ghost predicate Intact(t: Tables, json: string -> bool) {
    && DevicesIntact(t, json)
    && ResultsIntact(t, json)
    && ClaimsIntact(t)
    && PendingRowsIntact(t, json)
    && PendingReferencesIntact(t)
  }

  /** One statement: the new tables, or the constraint it would break. */
  function Exec(t: Tables, json: string -> bool, stmt: Statement): Result<Tables, ConstraintError> {
    match stmt
    case DeletePending(id) => Ok(t.(pending := t.pending - {id}))
    case DeleteClaim(s) => Ok(t.(claims := t.claims - {s}))
    case DeleteResult(s) =>
      if s !in t.results then Ok(t)
      else if t.results[s].commandId in t.pending then Err(Restricted)
      else
        var cascaded := s in t.claims && t.claims[s].commandId == t.results[s].commandId;
        Ok(t.(results := t.results - {s}, claims := if cascaded then t.claims - {s} else t.claims))
    case DeleteDevice(n) => Ok(t.(devices := t.devices - {n}))
    case UpsertDevice(n, record) =>
      if n == "" || !json(record) then Err(CheckFailed) else Ok(t.(devices := t.devices[n := record]))
    case InsertResult(s, row) =>
      if s == "" || row.commandId == "" || !json(row.text) then Err(CheckFailed)
      else if s in t.results then Err(PrimaryKeyTaken)
      else if HasResultFor(t, row.commandId) then Err(UniqueTaken)
      else Ok(t.(results := t.results[s := row]))
    case InsertClaim(s, row) =>
      if s == "" || row.commandId == "" || row.text == "" then Err(CheckFailed)
      else if s in t.claims then Err(PrimaryKeyTaken)
      else if s !in t.results || t.results[s].commandId != row.commandId then Err(ForeignKeyMissing)
      else Ok(t.(claims := t.claims[s := row]))
    case InsertPending(id, row) =>
      if id == "" || row.deviceId == "" || row.position < 0 || !json(row.json) then Err(CheckFailed)
      else if id in t.pending then Err(PrimaryKeyTaken)
      else if exists k | k in t.pending ::
                t.pending[k].deviceId == row.deviceId && t.pending[k].position == row.position
      then Err(UniqueTaken)
      else if !HasResultFor(t, id) then Err(ForeignKeyMissing)
      else Ok(t.(pending := t.pending[id := row]))
  }

  lemma StatementsKeepDevices(t: Tables, json: string -> bool, stmt: Statement)
    requires DevicesIntact(t, json) && Exec(t, json, stmt).Ok?
    ensures DevicesIntact(Exec(t, json, stmt).value, json)
  {
  }

  lemma StatementsKeepResults(t: Tables, json: string -> bool, stmt: Statement)
    requires ResultsIntact(t, json) && Exec(t, json, stmt).Ok?
    ensures ResultsIntact(Exec(t, json, stmt).value, json)
  {
    var t' := Exec(t, json, stmt).value;
    if stmt.InsertResult? {
      forall k | k in t.results ensures t.results[k].commandId != stmt.row.commandId {
        assert !HasResultFor(t, stmt.row.commandId);
      }
      assert t'.results == t.results[stmt.scope := stmt.row];
    } else {
      assert forall k | k in t'.results :: k in t.results && t'.results[k] == t.results[k];
    }
  }

  lemma StatementsKeepClaims(t: Tables, json: string -> bool, stmt: Statement)
    requires ClaimsIntact(t) && Exec(t, json, stmt).Ok?
    ensures ClaimsIntact(Exec(t, json, stmt).value)
  {
  }

  lemma StatementsKeepPending(t: Tables, json: string -> bool, stmt: Statement)
    requires PendingRowsIntact(t, json) && Exec(t, json, stmt).Ok?
    ensures PendingRowsIntact(Exec(t, json, stmt).value, json)
  {
    var t' := Exec(t, json, stmt).value;
    if stmt.InsertPending? {
      assert t'.pending == t.pending[stmt.commandId := stmt.queued];
    } else {
      assert forall k | k in t'.pending :: k in t.pending && t'.pending[k] == t.pending[k];
    }
  }

  lemma StatementsKeepReferences(t: Tables, json: string -> bool, stmt: Statement)
    requires Intact(t, json) && Exec(t, json, stmt).Ok?
    ensures PendingReferencesIntact(Exec(t, json, stmt).value)
  {
    var t' := Exec(t, json, stmt).value;
    forall id | id in t'.pending ensures HasResultFor(t', id) {
      assert HasResultFor(t, id);
      var s :| s in t.results && t.results[s].commandId == id;
      assert s in t'.results && t'.results[s] == t.results[s];
    }
  }

  /** Accepted statements keep every constraint; in particular no deletion leaves a dangling reference. */
  lemma StatementsKeepIntegrity(t: Tables, json: string -> bool, stmt: Statement)
    requires Intact(t, json) && Exec(t, json, stmt).Ok?
    ensures Intact(Exec(t, json, stmt).value, json)
  {
    StatementsKeepDevices(t, json, stmt);
    StatementsKeepResults(t, json, stmt);
    StatementsKeepClaims(t, json, stmt);
    StatementsKeepPending(t, json, stmt);
    StatementsKeepReferences(t, json, stmt);
  }

  /** The database connection: statements run one at a time, and a transaction can be rolled back. */
  class Database {
    var tables: Tables
    const json: string -> bool

    constructor (json: string -> bool)
      ensures tables == Tables(map[], map[], map[], map[]) && this.json == json
    {
      tables := Tables(map[], map[], map[], map[]);
      this.json := json;
    }

    /** A statement either takes full effect or leaves the tables alone. */
    method Execute(stmt: Statement) returns (r: Result<(), ConstraintError>)
      modifies this
      ensures var run := Exec(old(tables), json, stmt);
              if run.Ok? then r == Ok(()) && tables == run.value else r == Err(run.error) && tables == old(tables)
    {
      var run := Exec(tables, json, stmt);
      if run.Err? {
        return Err(run.error);
      }
      tables := run.value;
      return Ok(());
    }
  }
}
