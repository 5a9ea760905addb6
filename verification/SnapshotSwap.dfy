/**
  compare_and_swap_snapshot: an atomic replacement of one validated snapshot by another.
 */
module SnapshotSwap {
  import opened Wrappers
  import opened SnapshotTables
  import opened RowChanges
  import opened Snapshot

  datatype SwapError = InvalidSnapshot | StaleExpectedState | PostWriteParityMismatch

  /** Two commands that differ, and only in when they were issued. */
  predicate DifferOnlyInIssueTime(a: Command, b: Command) {
    a != b && b == a.(issuedAt := b.issuedAt)
  }

  /** Some replay record changes its issue time and nothing else. */
  ghost predicate ReissuesOnly(expected: ControlPlane, candidate: ControlPlane) {
    exists i, j :: 0 <= i < |expected.replay| && 0 <= j < |candidate.replay|
                   && DifferOnlyInIssueTime(expected.replay[i].command, candidate.replay[j].command)
  }

  // ---------------------------------------------------------------- validated snapshots

  lemma ReplayRowsIntact(k: Codec, s: ControlPlane)
    requires Sound(k) && Valid(k, s)
    ensures ResultsIntact(Relational(k, s), k.isJson) && ClaimsIntact(Relational(k, s))
  {
    var t := Relational(k, s);
    forall scope | scope in t.results
      ensures scope != "" && t.results[scope].commandId != "" && k.isJson(t.results[scope].text)
    {
      var i := RowSource(k, s, scope);
    }
    forall a, b | a in t.results && b in t.results && t.results[a].commandId == t.results[b].commandId ensures a == b {
      var i := RowSource(k, s, a);
      var j := RowSource(k, s, b);
      assert i == j;
    }
    forall scope | scope in t.claims
      ensures && scope != "" && t.claims[scope].commandId != "" && t.claims[scope].text != ""
              && scope in t.results && t.results[scope].commandId == t.claims[scope].commandId
    {
      var i := RowSource(k, s, scope);
    }
  }

  lemma PendingIntact(k: Codec, s: ControlPlane)
    requires Sound(k) && Valid(k, s)
    ensures PendingRowsIntact(Relational(k, s), k.isJson) && PendingReferencesIntact(Relational(k, s))
  {
    var t := Relational(k, s);
    forall id | id in t.pending
      ensures id != "" && t.pending[id].deviceId != "" && t.pending[id].position >= 0 && k.isJson(t.pending[id].json)
      ensures HasResultFor(t, id)
    {
      var d, i := PendingSource(k, s, id);
      var j := QueuedResult(k, s, d, i);
    }
    forall a, b | a in t.pending && b in t.pending && t.pending[a].deviceId == t.pending[b].deviceId
                  && t.pending[a].position == t.pending[b].position ensures a == b
    {
      var d, i := PendingSource(k, s, a);
      var e, j := PendingSource(k, s, b);
    }
  }

  /** A queued command's own row is among the results, under its own scope. */
  lemma QueuedResult(k: Codec, s: ControlPlane, d: string, i: nat) returns (j: nat)
    requires Valid(k, s) && Queued(s, d, i)
    ensures j < |s.replay| && s.replay[j].command == s.queues[d][i]
    ensures var c := s.queues[d][i];
            && ScopeOf(k, c) in ResultRows(k, s.replay)
            && ResultRows(k, s.replay)[ScopeOf(k, c)] == Row2(c.commandId, k.commandJson(c))
  {
    assert Replayed(s, s.queues[d][i]);
    j :| 0 <= j < |s.replay| && s.replay[j].command == s.queues[d][i];
    assert s.replay[j] == FromCommand(k, s.replay[j].command);
    ReplayRowAt(k, s.replay, j);
  }

  /** Every validated snapshot satisfies the schema. */
  lemma ValidSnapshotsAreIntact(k: Codec, s: ControlPlane)
    requires Sound(k) && Valid(k, s)
    ensures Intact(Relational(k, s), k.isJson)
  {
    ReplayRowsIntact(k, s);
    PendingIntact(k, s);
  }

  /** A pending row shared by two validated snapshots keeps its result row: its scope is a function of the command. */
  lemma SharedPending(k: Codec, e: ControlPlane, c: ControlPlane)
    requires Sound(k) && Valid(k, e) && Valid(k, c)
    ensures SharedPendingKeepsResult(Relational(k, e), Relational(k, c))
  {
    var a, b := Relational(k, e), Relational(k, c);
    forall id, s | id in a.pending && id in b.pending && a.pending[id] == b.pending[id]
                   && s in a.results && a.results[s].commandId == id
      ensures s in b.results && b.results[s] == a.results[s]
    {
      var d, i := PendingSource(k, e, id);
      var d', i' := PendingSource(k, c, id);
      assert e.queues[d][i] == c.queues[d'][i'];
      var j := QueuedResult(k, e, d, i);
      var j' := QueuedResult(k, c, d', i');
      var m := RowSource(k, e, s);
      assert m == j;
      assert e.replay[j].scopeKey == s;
    }
  }

  /** Any two validated snapshots can be exchanged without a constraint violation. */
  lemma ValidSnapshotsAreSwappable(k: Codec, e: ControlPlane, c: ControlPlane)
    requires Sound(k) && Valid(k, e) && Valid(k, c)
    ensures Swappable(Relational(k, e), Relational(k, c), k.isJson)
  {
    ValidSnapshotsAreIntact(k, e);
    ValidSnapshotsAreIntact(k, c);
    SharedPending(k, e, c);
  }

  /**
    Schema integrity of both states would not be enough: if a pending command's result row
    moved to another scope, its deletion would be restricted by the pending row still there.
   */
  lemma IntegrityAloneIsNotEnough(json: string -> bool, text: string)
      returns (current: Tables, candidate: Tables, s: string)
    requires json(text)
    ensures Intact(current, json) && Intact(candidate, json)
    ensures s in Differing(current.results, candidate.results)
    ensures var t := DropPending(current, Differing(current.pending, candidate.pending));
            Exec(t, json, DeleteResult(s)) == Err(Restricted)
  {
    s := "s";
    var row, pending := Row2("c", text), map["c" := PendingRow("d", 0, text)];
    current := Tables(map[], map[s := row], map[], pending);
    candidate := Tables(map[], map["t" := row], map[], pending);
    assert current.results["s"].commandId == "c" && candidate.results["t"].commandId == "c";
    assert HasResultFor(current, "c") && HasResultFor(candidate, "c");
    assert Differing(current.pending, candidate.pending) == {};
    assert current.pending - {} == current.pending;
  }

  /** Rows that share a claim but not a result differ in their issue time alone. */
  lemma SameClaimOtherResult(k: Codec, a: Command, b: Command)
    requires Sound(k) && ScopeOf(k, a) == ScopeOf(k, b) && a.commandId == b.commandId
    requires k.fingerprint(RequestOf(a)) == k.fingerprint(RequestOf(b)) && k.commandJson(a) != k.commandJson(b)
    ensures DifferOnlyInIssueTime(a, b)
  {
    assert RequestOf(a) == RequestOf(b);
  }

  lemma LostClaimReissues(k: Codec, e: ControlPlane, c: ControlPlane, s: string)
    requires Sound(k) && Valid(k, e) && Valid(k, c)
    requires s in LostClaims(Relational(k, e), Relational(k, c))
    ensures ReissuesOnly(e, c)
  {
    var i := RowSource(k, e, s);
    var j := RowSource(k, c, s);
    SameClaimOtherResult(k, e.replay[i].command, c.replay[j].command);
  }

  lemma ReissueLosesClaim(k: Codec, e: ControlPlane, c: ControlPlane, i: nat, j: nat)
    requires Sound(k) && Valid(k, e) && Valid(k, c)
    requires i < |e.replay| && j < |c.replay|
    requires DifferOnlyInIssueTime(e.replay[i].command, c.replay[j].command)
    ensures e.replay[i].scopeKey in LostClaims(Relational(k, e), Relational(k, c))
  {
    assert e.replay[i] == FromCommand(k, e.replay[i].command);
    assert c.replay[j] == FromCommand(k, c.replay[j].command);
    ReplayRowAt(k, e.replay, i);
    ReplayRowAt(k, c.replay, j);
  }

  /** The cascade loses a claim exactly when some command is re-issued with nothing else changed. */
  lemma ClaimsAreLostIffReissued(k: Codec, e: ControlPlane, c: ControlPlane)
    requires Sound(k) && Valid(k, e) && Valid(k, c)
    ensures LostClaims(Relational(k, e), Relational(k, c)) == {} <==> !ReissuesOnly(e, c)
  {
    if ReissuesOnly(e, c) {
      var i, j :| 0 <= i < |e.replay| && 0 <= j < |c.replay|
                  && DifferOnlyInIssueTime(e.replay[i].command, c.replay[j].command);
      ReissueLosesClaim(k, e, c, i, j);
    } else if LostClaims(Relational(k, e), Relational(k, c)) != {} {
      var s :| s in LostClaims(Relational(k, e), Relational(k, c));
      LostClaimReissues(k, e, c, s);
    }
  }

  lemma LostClaimsAreClaims(current: Tables, candidate: Tables)
    ensures candidate.(claims := candidate.claims - LostClaims(current, candidate)) == candidate
       <==> LostClaims(current, candidate) == {}
  {
    var lost := LostClaims(current, candidate);
    if lost == {} {
      assert candidate.claims - lost == candidate.claims;
    } else {
      var s :| s in lost;
      assert s in candidate.claims && s !in candidate.claims - lost;
    }
  }

  // ---------------------------------------------------------------- the operation

  /** What a caller of the compare-and-swap is promised. */
  ghost function SwapResult(k: Codec, before: Tables, e: ControlPlane, c: ControlPlane): Result<Changes, SwapError> {
    if !Valid(k, e) || !Valid(k, c) then Err(InvalidSnapshot)
    else if before != Relational(k, e) then Err(StaleExpectedState)
    else if ReissuesOnly(e, c) then Err(PostWriteParityMismatch)
    else Ok(ChangeCounts(Relational(k, e), Relational(k, c)))
  }

  function OneRecord(k: Codec, c: Command): ControlPlane {
    ControlPlane(map[], map[], [FromCommand(k, c)])
  }

  lemma OneRecordIsValid(k: Codec, c: Command)
    requires c.deviceId != ""
    ensures Valid(k, OneRecord(k, c))
  {
    assert PendingPositions(OneRecord(k, c)) == {};
  }

  /**
    Re-issues are refused: for every command and every other issue time, the snapshots holding
    just the one and just the other are valid, and exchanging them never succeeds.
   */
  lemma ReissueIsRefused(k: Codec, c: Command, issuedAt: string)
    requires c.deviceId != "" && issuedAt != c.issuedAt
    ensures var e, n := OneRecord(k, c), OneRecord(k, c.(issuedAt := issuedAt));
            && Valid(k, e) && Valid(k, n)
            && SwapResult(k, Relational(k, e), e, n) == Err(PostWriteParityMismatch)
  {
    var d := c.(issuedAt := issuedAt);
    var e, n := OneRecord(k, c), OneRecord(k, d);
    OneRecordIsValid(k, c);
    OneRecordIsValid(k, d);
    assert DifferOnlyInIssueTime(e.replay[0].command, n.replay[0].command);
  }

  /**
    The swap succeeds exactly when both snapshots are valid, the tables hold the expected one
    and no command is merely re-issued. Then the tables hold the candidate; otherwise they are
    unchanged. No statement of the row changes ever breaks a constraint.
   */
  method CompareAndSwapSnapshot(db: Database, k: Codec, expected: ControlPlane, candidate: ControlPlane)
    returns (r: Result<Changes, SwapError>)
    requires Sound(k) && db.json == k.isJson
    modifies db
    ensures r == SwapResult(k, old(db.tables), expected, candidate)
    ensures r.Ok? ==> db.tables == Relational(k, candidate) && CountsRows(old(db.tables), db.tables, r.value)
    ensures r.Err? ==> db.tables == old(db.tables)
  {
    var valid := Validate(k, expected);
    if valid.Err? {
      return Err(InvalidSnapshot);
    }
    valid := Validate(k, candidate);
    if valid.Err? {
      return Err(InvalidSnapshot);
    }
    var expectedRows := Materialize(k, expected);
    var candidateRows := Materialize(k, candidate);

    var saved := db.tables;
    if db.tables != expectedRows {
      return Err(StaleExpectedState);
    }
    ValidSnapshotsAreSwappable(k, expected, candidate);
    ClaimsAreLostIffReissued(k, expected, candidate);
    LostClaimsAreClaims(expectedRows, candidateRows);
    var changes := ApplyRowChanges(db, expectedRows, candidateRows);
    assert changes.Ok?;
    if db.tables != candidateRows {
      db.tables := saved;
      return Err(PostWriteParityMismatch);
    }
    return Ok(changes.value);
  }
}
