/**
  apply_row_changes of crates/control-plane-sqlite/src/snapshot_compare_and_swap.rs: eight
  ordered loops that turn one relational state into another under live constraints. The
  source walks ordered maps; here each loop takes the rows in an arbitrary order.
 */
module RowChanges {
  import opened Wrappers
  import opened Counting
  import opened SnapshotTables

  datatype Changes = Changes(
    devicesUpserted: nat,
    devicesDeleted: nat,
    resultsInserted: nat,
    resultsDeleted: nat,
    claimsInserted: nat,
    claimsDeleted: nat,
    pendingInserted: nat,
    pendingDeleted: nat)

  /** The keys of `a` that `b` does not map to the same value. */
  function Differing<V(==)>(a: map<string, V>, b: map<string, V>): set<string> {
    set k | k in a && (k !in b || b[k] != a[k])
  }

  function Restrict<V>(m: map<string, V>, keys: set<string>): map<string, V> {
    map k | k in m && k in keys :: m[k]
  }

  /** The rows common to both states survive the deletions and the insertions complete them. */
  lemma KeptPlusInserted<V>(a: map<string, V>, b: map<string, V>)
    ensures (a - Differing(a, b)) + Restrict(b, Differing(b, a)) == b
    ensures (a - Differing(a, b)).Keys !! Differing(b, a)
    ensures forall k | k in a - Differing(a, b) :: k in b && (a - Differing(a, b))[k] == b[k]
  {
  }

  // ---------------------------------------------------------------- deletions

  ghost function DropPending(t: Tables, gone: set<string>): Tables {
    t.(pending := t.pending - gone)
  }

  ghost function DropClaims(t: Tables, gone: set<string>): Tables {
    t.(claims := t.claims - gone)
  }

  ghost function DropResults(t: Tables, gone: set<string>): Tables {
    t.(results := t.results - gone, claims := t.claims - gone)
  }

  ghost function DropDevices(t: Tables, gone: set<string>): Tables {
    t.(devices := t.devices - gone)
  }

  lemma DropNothing(t: Tables)
    ensures DropPending(t, {}) == DropClaims(t, {}) == DropResults(t, {}) == DropDevices(t, {}) == t
  {
    assert t.pending - {} == t.pending;
    assert t.claims - {} == t.claims;
    assert t.results - {} == t.results;
    assert t.devices - {} == t.devices;
  }

  lemma RowDeleted(t: Tables, gone: set<string>, k: string, json: string -> bool)
    ensures Exec(DropPending(t, gone), json, DeletePending(k)) == Ok(DropPending(t, gone + {k}))
    ensures Exec(DropClaims(t, gone), json, DeleteClaim(k)) == Ok(DropClaims(t, gone + {k}))
    ensures Exec(DropDevices(t, gone), json, DeleteDevice(k)) == Ok(DropDevices(t, gone + {k}))
  {
    assert t.pending - gone - {k} == t.pending - (gone + {k});
    assert t.claims - gone - {k} == t.claims - (gone + {k});
    assert t.devices - gone - {k} == t.devices - (gone + {k});
  }

  method DeleteStalePending(db: Database, current: Tables, candidate: Tables) returns (count: nat)
    modifies db
    ensures count == |Differing(current.pending, candidate.pending)|
    ensures db.tables == DropPending(old(db.tables), Differing(current.pending, candidate.pending))
  {
    ghost var stale := Differing(current.pending, candidate.pending);
    var todo := current.pending.Keys;
    count := 0;
    ProgressStarts(stale, todo);
    DropNothing(db.tables);
    while todo != {}
      invariant todo <= current.pending.Keys
      invariant count == |stale - todo|
      invariant db.tables == DropPending(old(db.tables), stale - todo)
      decreases todo
    {
      var id :| id in todo;
      Progress(stale, todo, id);
      if id !in candidate.pending || candidate.pending[id] != current.pending[id] {
        RowDeleted(old(db.tables), stale - todo, id, db.json);
        var done := db.Execute(DeletePending(id));
        assert done.Ok?;
        count := count + 1;
      }
      todo := todo - {id};
    }
    ProgressEnds(stale);
  }

  method DeleteStaleClaims(db: Database, current: Tables, candidate: Tables) returns (count: nat)
    modifies db
    ensures count == |Differing(current.claims, candidate.claims)|
    ensures db.tables == DropClaims(old(db.tables), Differing(current.claims, candidate.claims))
  {
    ghost var stale := Differing(current.claims, candidate.claims);
    var todo := current.claims.Keys;
    count := 0;
    ProgressStarts(stale, todo);
    DropNothing(db.tables);
    while todo != {}
      invariant todo <= current.claims.Keys
      invariant count == |stale - todo|
      invariant db.tables == DropClaims(old(db.tables), stale - todo)
      decreases todo
    {
      var s :| s in todo;
      Progress(stale, todo, s);
      if s !in candidate.claims || candidate.claims[s] != current.claims[s] {
        RowDeleted(old(db.tables), stale - todo, s, db.json);
        var done := db.Execute(DeleteClaim(s));
        assert done.Ok?;
        count := count + 1;
      }
      todo := todo - {s};
    }
    ProgressEnds(stale);
  }

  /** No stale result row is still referenced by a pending row, and claims agree with results. */
  ghost predicate StaleResultsAreFree(t: Tables, current: Tables, candidate: Tables) {
    && t.results == current.results
    && ClaimsIntact(t)
    && forall s | s in Differing(current.results, candidate.results) :: current.results[s].commandId !in t.pending
  }

  lemma StaleResultDeleted(
      t: Tables, current: Tables, candidate: Tables, gone: set<string>, s: string, json: string -> bool)
    requires StaleResultsAreFree(t, current, candidate)
    requires s in Differing(current.results, candidate.results) && s !in gone
    ensures Exec(DropResults(t, gone), json, DeleteResult(s)) == Ok(DropResults(t, gone + {s}))
  {
    assert t.results - gone - {s} == t.results - (gone + {s});
    assert t.claims - gone - {s} == t.claims - (gone + {s});
    if s !in t.claims {
      assert t.claims - gone == t.claims - (gone + {s});
    }
  }

  /** Result rows take their claims with them. */
  method DeleteStaleResults(db: Database, current: Tables, candidate: Tables)
    returns (r: Result<nat, ConstraintError>)
    modifies db
    ensures old(StaleResultsAreFree(db.tables, current, candidate)) ==>
              && r == Ok(|Differing(current.results, candidate.results)|)
              && db.tables == DropResults(old(db.tables), Differing(current.results, candidate.results))
  {
    ghost var free := StaleResultsAreFree(db.tables, current, candidate);
    ghost var stale := Differing(current.results, candidate.results);
    var todo := current.results.Keys;
    var count := 0;
    ProgressStarts(stale, todo);
    DropNothing(db.tables);
    while todo != {}
      invariant todo <= current.results.Keys
      invariant count == |stale - todo|
      invariant free ==> db.tables == DropResults(old(db.tables), stale - todo)
      decreases todo
    {
      var s :| s in todo;
      Progress(stale, todo, s);
      if s !in candidate.results || candidate.results[s] != current.results[s] {
        if free {
          StaleResultDeleted(old(db.tables), current, candidate, stale - todo, s, db.json);
        }
        var done := db.Execute(DeleteResult(s));
        if done.Err? {
          return Err(done.error);
        }
        count := count + 1;
      }
      todo := todo - {s};
    }
    ProgressEnds(stale);
    return Ok(count);
  }

  method DeleteStaleDevices(db: Database, current: Tables, candidate: Tables) returns (count: nat)
    modifies db
    ensures count == |current.devices.Keys - candidate.devices.Keys|
    ensures db.tables == DropDevices(old(db.tables), current.devices.Keys - candidate.devices.Keys)
  {
    ghost var stale := current.devices.Keys - candidate.devices.Keys;
    var todo := current.devices.Keys;
    count := 0;
    ProgressStarts(stale, todo);
    DropNothing(db.tables);
    while todo != {}
      invariant todo <= current.devices.Keys
      invariant count == |stale - todo|
      invariant db.tables == DropDevices(old(db.tables), stale - todo)
      decreases todo
    {
      var n :| n in todo;
      Progress(stale, todo, n);
      if n !in candidate.devices {
        RowDeleted(old(db.tables), stale - todo, n, db.json);
        var done := db.Execute(DeleteDevice(n));
        assert done.Ok?;
        count := count + 1;
      }
      todo := todo - {n};
    }
    ProgressEnds(stale);
  }

  // ---------------------------------------------------------------- insertions

  ghost function AddDevices(t: Tables, candidate: Tables, keys: set<string>): Tables {
    t.(devices := t.devices + Restrict(candidate.devices, keys))
  }

  ghost function AddResults(t: Tables, candidate: Tables, keys: set<string>): Tables {
    t.(results := t.results + Restrict(candidate.results, keys))
  }

  ghost function AddClaims(t: Tables, candidate: Tables, keys: set<string>): Tables {
    t.(claims := t.claims + Restrict(candidate.claims, keys))
  }

  ghost function AddPending(t: Tables, candidate: Tables, keys: set<string>): Tables {
    t.(pending := t.pending + Restrict(candidate.pending, keys))
  }

  lemma AddNothing(t: Tables, c: Tables)
    ensures AddDevices(t, c, {}) == AddResults(t, c, {}) == AddClaims(t, c, {}) == AddPending(t, c, {}) == t
  {
    assert t.devices + Restrict(c.devices, {}) == t.devices;
    assert t.results + Restrict(c.results, {}) == t.results;
    assert t.claims + Restrict(c.claims, {}) == t.claims;
    assert t.pending + Restrict(c.pending, {}) == t.pending;
  }

  lemma RestrictGrows<V>(base: map<string, V>, m: map<string, V>, done: set<string>, k: string)
    requires k in m
    ensures (base + Restrict(m, done))[k := m[k]] == base + Restrict(m, done + {k})
  {
  }

  lemma DeviceUpserted(t: Tables, candidate: Tables, done: set<string>, n: string, json: string -> bool)
    requires DevicesIntact(candidate, json) && n in candidate.devices
    ensures Exec(AddDevices(t, candidate, done), json, UpsertDevice(n, candidate.devices[n]))
         == Ok(AddDevices(t, candidate, done + {n}))
  {
    RestrictGrows(t.devices, candidate.devices, done, n);
  }

  method UpsertDevices(db: Database, current: Tables, candidate: Tables) returns (r: Result<nat, ConstraintError>)
    modifies db
    ensures DevicesIntact(candidate, db.json) ==>
              && r == Ok(|Differing(candidate.devices, current.devices)|)
              && db.tables == AddDevices(old(db.tables), candidate, Differing(candidate.devices, current.devices))
  {
    ghost var sound := DevicesIntact(candidate, db.json);
    ghost var added := Differing(candidate.devices, current.devices);
    var todo := candidate.devices.Keys;
    var count := 0;
    ProgressStarts(added, todo);
    AddNothing(db.tables, candidate);
    while todo != {}
      invariant todo <= candidate.devices.Keys
      invariant count == |added - todo|
      invariant sound ==> db.tables == AddDevices(old(db.tables), candidate, added - todo)
      decreases todo
    {
      var n :| n in todo;
      Progress(added, todo, n);
      if n !in current.devices || current.devices[n] != candidate.devices[n] {
        if sound {
          DeviceUpserted(old(db.tables), candidate, added - todo, n, db.json);
        }
        var done := db.Execute(UpsertDevice(n, candidate.devices[n]));
        if done.Err? {
          return Err(done.error);
        }
        count := count + 1;
      }
      todo := todo - {n};
    }
    ProgressEnds(added);
    return Ok(count);
  }

  /** The rows of a table are rows of the candidate, none of them among the ones to insert. */
  ghost predicate PartOf<V>(m: map<string, V>, target: map<string, V>, missing: set<string>) {
    && (forall k | k in m :: k in target && m[k] == target[k])
    && m.Keys !! missing
  }

  ghost predicate ResultsInsertable(t: Tables, current: Tables, candidate: Tables, json: string -> bool) {
    && ResultsIntact(candidate, json)
    && PartOf(t.results, candidate.results, Differing(candidate.results, current.results))
  }

  lemma ResultInserted(
      t: Tables, current: Tables, candidate: Tables, done: set<string>, s: string, json: string -> bool)
    requires ResultsInsertable(t, current, candidate, json)
    requires s in Differing(candidate.results, current.results) && s !in done
    ensures Exec(AddResults(t, candidate, done), json, InsertResult(s, candidate.results[s]))
         == Ok(AddResults(t, candidate, done + {s}))
  {
    RestrictGrows(t.results, candidate.results, done, s);
    assert !HasResultFor(AddResults(t, candidate, done), candidate.results[s].commandId);
  }

  method InsertResults(db: Database, current: Tables, candidate: Tables) returns (r: Result<nat, ConstraintError>)
    modifies db
    ensures old(ResultsInsertable(db.tables, current, candidate, db.json)) ==>
              && r == Ok(|Differing(candidate.results, current.results)|)
              && db.tables == AddResults(old(db.tables), candidate, Differing(candidate.results, current.results))
  {
    ghost var sound := ResultsInsertable(db.tables, current, candidate, db.json);
    ghost var added := Differing(candidate.results, current.results);
    var todo := candidate.results.Keys;
    var count := 0;
    ProgressStarts(added, todo);
    AddNothing(db.tables, candidate);
    while todo != {}
      invariant todo <= candidate.results.Keys
      invariant count == |added - todo|
      invariant sound ==> db.tables == AddResults(old(db.tables), candidate, added - todo)
      decreases todo
    {
      var s :| s in todo;
      Progress(added, todo, s);
      if s !in current.results || current.results[s] != candidate.results[s] {
        if sound {
          ResultInserted(old(db.tables), current, candidate, added - todo, s, db.json);
        }
        var done := db.Execute(InsertResult(s, candidate.results[s]));
        if done.Err? {
          return Err(done.error);
        }
        count := count + 1;
      }
      todo := todo - {s};
    }
    ProgressEnds(added);
    return Ok(count);
  }

  ghost predicate ClaimsInsertable(t: Tables, current: Tables, candidate: Tables) {
    && ClaimsIntact(candidate)
    && t.results == candidate.results
    && t.claims.Keys !! Differing(candidate.claims, current.claims)
  }

  lemma ClaimInserted(t: Tables, current: Tables, candidate: Tables, done: set<string>, s: string, json: string -> bool)
    requires ClaimsInsertable(t, current, candidate)
    requires s in Differing(candidate.claims, current.claims) && s !in done
    ensures Exec(AddClaims(t, candidate, done), json, InsertClaim(s, candidate.claims[s]))
         == Ok(AddClaims(t, candidate, done + {s}))
  {
    RestrictGrows(t.claims, candidate.claims, done, s);
  }

  method InsertClaims(db: Database, current: Tables, candidate: Tables) returns (r: Result<nat, ConstraintError>)
    modifies db
    ensures old(ClaimsInsertable(db.tables, current, candidate)) ==>
              && r == Ok(|Differing(candidate.claims, current.claims)|)
              && db.tables == AddClaims(old(db.tables), candidate, Differing(candidate.claims, current.claims))
  {
    ghost var sound := ClaimsInsertable(db.tables, current, candidate);
    ghost var added := Differing(candidate.claims, current.claims);
    var todo := candidate.claims.Keys;
    var count := 0;
    ProgressStarts(added, todo);
    AddNothing(db.tables, candidate);
    while todo != {}
      invariant todo <= candidate.claims.Keys
      invariant count == |added - todo|
      invariant sound ==> db.tables == AddClaims(old(db.tables), candidate, added - todo)
      decreases todo
    {
      var s :| s in todo;
      Progress(added, todo, s);
      if s !in current.claims || current.claims[s] != candidate.claims[s] {
        if sound {
          ClaimInserted(old(db.tables), current, candidate, added - todo, s, db.json);
        }
        var done := db.Execute(InsertClaim(s, candidate.claims[s]));
        if done.Err? {
          return Err(done.error);
        }
        count := count + 1;
      }
      todo := todo - {s};
    }
    ProgressEnds(added);
    return Ok(count);
  }

  ghost predicate PendingInsertable(t: Tables, current: Tables, candidate: Tables, json: string -> bool) {
    && PendingRowsIntact(candidate, json)
    && PendingReferencesIntact(candidate)
    && t.results == candidate.results
    && PartOf(t.pending, candidate.pending, Differing(candidate.pending, current.pending))
  }

  lemma PendingInserted(
      t: Tables, current: Tables, candidate: Tables, done: set<string>, id: string, json: string -> bool)
    requires PendingInsertable(t, current, candidate, json)
    requires id in Differing(candidate.pending, current.pending) && id !in done
    ensures Exec(AddPending(t, candidate, done), json, InsertPending(id, candidate.pending[id]))
         == Ok(AddPending(t, candidate, done + {id}))
  {
    var now := AddPending(t, candidate, done);
    RestrictGrows(t.pending, candidate.pending, done, id);
    assert HasResultFor(candidate, id);
    var s :| s in candidate.results && candidate.results[s].commandId == id;
    assert s in now.results && now.results[s].commandId == id;
    forall k | k in now.pending
      ensures !(now.pending[k].deviceId == candidate.pending[id].deviceId
                && now.pending[k].position == candidate.pending[id].position)
    {
      assert k in candidate.pending && now.pending[k] == candidate.pending[k] && k != id;
    }
  }

  method InsertPendings(db: Database, current: Tables, candidate: Tables) returns (r: Result<nat, ConstraintError>)
    modifies db
    ensures old(PendingInsertable(db.tables, current, candidate, db.json)) ==>
              && r == Ok(|Differing(candidate.pending, current.pending)|)
              && db.tables == AddPending(old(db.tables), candidate, Differing(candidate.pending, current.pending))
  {
    ghost var sound := PendingInsertable(db.tables, current, candidate, db.json);
    ghost var added := Differing(candidate.pending, current.pending);
    var todo := candidate.pending.Keys;
    var count := 0;
    ProgressStarts(added, todo);
    AddNothing(db.tables, candidate);
    while todo != {}
      invariant todo <= candidate.pending.Keys
      invariant count == |added - todo|
      invariant sound ==> db.tables == AddPending(old(db.tables), candidate, added - todo)
      decreases todo
    {
      var id :| id in todo;
      Progress(added, todo, id);
      if id !in current.pending || current.pending[id] != candidate.pending[id] {
        if sound {
          PendingInserted(old(db.tables), current, candidate, added - todo, id, db.json);
        }
        var done := db.Execute(InsertPending(id, candidate.pending[id]));
        if done.Err? {
          return Err(done.error);
        }
        count := count + 1;
      }
      todo := todo - {id};
    }
    ProgressEnds(added);
    return Ok(count);
  }

  // ---------------------------------------------------------------- the whole change

  /** A pending row present in both states has its result row in both states. */
  ghost predicate SharedPendingKeepsResult(current: Tables, candidate: Tables) {
    forall id, s | id in current.pending && id in candidate.pending && current.pending[id] == candidate.pending[id]
                   && s in current.results && current.results[s].commandId == id ::
      s in candidate.results && candidate.results[s] == current.results[s]
  }

  ghost predicate Swappable(current: Tables, candidate: Tables, json: string -> bool) {
    Intact(current, json) && Intact(candidate, json) && SharedPendingKeepsResult(current, candidate)
  }

  /** Claims present in both states whose result row is rewritten: the cascade drops them and nothing restores them. */
  function LostClaims(current: Tables, candidate: Tables): set<string> {
    set s | s in current.claims && s in candidate.claims && current.claims[s] == candidate.claims[s]
            && s in Differing(current.results, candidate.results)
  }

  function ChangeCounts(current: Tables, candidate: Tables): Changes {
    Changes(|Differing(candidate.devices, current.devices)|,
            |current.devices.Keys - candidate.devices.Keys|,
            |Differing(candidate.results, current.results)|,
            |Differing(current.results, candidate.results)|,
            |Differing(candidate.claims, current.claims)|,
            |Differing(current.claims, candidate.claims)|,
            |Differing(candidate.pending, current.pending)|,
            |Differing(current.pending, candidate.pending)|)
  }

  lemma {:induction false} ImageCount<V>(m: map<string, V>, keys: set<string>, pairs: set<(string, V)>)
    requires keys <= m.Keys && pairs == set k | k in keys :: (k, m[k])
    ensures |pairs| == |keys|
    decreases keys
  {
    if k :| k in keys {
      var rest := set x | x in keys - {k} :: (x, m[x]);
      ImageCount(m, keys - {k}, rest);
      assert pairs == rest + {(k, m[k])};
      assert keys == (keys - {k}) + {k};
    } else {
      assert pairs == {};
    }
  }

  /** The differing keys are as many as the rows one state has and the other has not. */
  lemma DifferingCountsRows<V>(a: map<string, V>, b: map<string, V>)
    ensures |Differing(a, b)| == |a.Items - b.Items|
  {
    var pairs := set k | k in Differing(a, b) :: (k, a[k]);
    forall p | p in a.Items - b.Items ensures p in pairs {
      assert p.0 in a && a[p.0] == p.1;
      assert p.0 in b && b[p.0] == p.1 ==> p in b.Items;
      assert p == (p.0, a[p.0]);
    }
    forall p | p in pairs ensures p in a.Items - b.Items {
      assert p.0 in Differing(a, b) && p == (p.0, a[p.0]);
    }
    assert a.Items - b.Items == pairs;
    ImageCount(a, Differing(a, b), pairs);
  }

  /** Rows of `a` and `b` differ in number by the rows gained less the rows lost. */
  lemma RowsBalance<V>(a: map<string, V>, b: map<string, V>)
    ensures |a| + |b.Items - a.Items| - |a.Items - b.Items| == |b|
  {
    ItemsCount(a);
    ItemsCount(b);
    assert a.Items == (a.Items - b.Items) + (a.Items * b.Items);
    assert b.Items == (b.Items - a.Items) + (a.Items * b.Items);
  }

  lemma ItemsCount<V>(m: map<string, V>)
    ensures |m.Items| == |m|
  {
    var pairs := set k | k in m.Keys :: (k, m[k]);
    forall p | p in m.Items ensures p in pairs {
      assert p.0 in m && p == (p.0, m[p.0]);
    }
    ImageCount(m, m.Keys, pairs);
    assert m.Items == pairs;
  }

  /** Every counter is the number of rows that were not there before, or are not there any more. */
  ghost predicate CountsRows(before: Tables, after: Tables, changes: Changes) {
    && changes.resultsInserted == |after.results.Items - before.results.Items|
    && changes.resultsDeleted == |before.results.Items - after.results.Items|
    && changes.claimsInserted == |after.claims.Items - before.claims.Items|
    && changes.claimsDeleted == |before.claims.Items - after.claims.Items|
    && changes.pendingInserted == |after.pending.Items - before.pending.Items|
    && changes.pendingDeleted == |before.pending.Items - after.pending.Items|
    && changes.devicesUpserted == |after.devices.Items - before.devices.Items|
    && changes.devicesDeleted == |before.devices.Keys - after.devices.Keys|
  }

  lemma ChangeCountsCountRows(current: Tables, candidate: Tables)
    ensures CountsRows(current, candidate, ChangeCounts(current, candidate))
  {
    DifferingCountsRows(candidate.devices, current.devices);
    DifferingCountsRows(candidate.results, current.results);
    DifferingCountsRows(current.results, candidate.results);
    DifferingCountsRows(candidate.claims, current.claims);
    DifferingCountsRows(current.claims, candidate.claims);
    DifferingCountsRows(candidate.pending, current.pending);
    DifferingCountsRows(current.pending, candidate.pending);
  }

  /** The books balance: what was there, plus what was inserted, less what was deleted, is what is there. */
  lemma CountersBalance(before: Tables, after: Tables, changes: Changes)
    requires CountsRows(before, after, changes)
    ensures |before.results| + changes.resultsInserted - changes.resultsDeleted == |after.results|
    ensures |before.claims| + changes.claimsInserted - changes.claimsDeleted == |after.claims|
    ensures |before.pending| + changes.pendingInserted - changes.pendingDeleted == |after.pending|
    ensures |before.devices| - changes.devicesDeleted + |after.devices.Keys - before.devices.Keys| == |after.devices|
    ensures before == Tables(map[], map[], map[], map[]) ==>
              changes == Changes(|after.devices|, 0, |after.results|, 0, |after.claims|, 0, |after.pending|, 0)
  {
    RowsBalance(before.results, after.results);
    RowsBalance(before.claims, after.claims);
    RowsBalance(before.pending, after.pending);
    KeysBalance(before.devices.Keys, after.devices.Keys);
    if before == Tables(map[], map[], map[], map[]) {
      AllRowsAreNew(after.devices);
      AllRowsAreNew(after.results);
      AllRowsAreNew(after.claims);
      AllRowsAreNew(after.pending);
    }
  }

  lemma KeysBalance(a: set<string>, b: set<string>)
    ensures |a| - |a - b| + |b - a| == |b|
  {
    assert a == (a - b) + a * b;
    assert b == (b - a) + a * b;
  }

  lemma AllRowsAreNew<V>(m: map<string, V>)
    ensures var none: map<string, V> := map[];
            |m.Items - none.Items| == |m| && |none.Items - m.Items| == 0
  {
    var none: map<string, V> := map[];
    ItemsCount(m);
    ItemsCount(none);
    assert m.Items - none.Items == m.Items && none.Items - m.Items == {};
  }

  lemma StaleResultIsFree(current: Tables, candidate: Tables, s: string)
    requires SharedPendingKeepsResult(current, candidate) && s in Differing(current.results, candidate.results)
    ensures current.results[s].commandId !in current.pending - Differing(current.pending, candidate.pending)
  {
  }

  lemma FreeAfterPendingDeletes(current: Tables, candidate: Tables, json: string -> bool)
    requires Swappable(current, candidate, json)
    ensures StaleResultsAreFree(
              current.(pending := current.pending - Differing(current.pending, candidate.pending),
                       claims := current.claims - Differing(current.claims, candidate.claims)),
              current, candidate)
  {
    forall s | s in Differing(current.results, candidate.results)
      ensures current.results[s].commandId !in current.pending - Differing(current.pending, candidate.pending)
    {
      StaleResultIsFree(current, candidate, s);
    }
  }

  lemma DevicesSwapped(current: map<string, string>, candidate: map<string, string>)
    ensures current - (current.Keys - candidate.Keys) + Restrict(candidate, Differing(candidate, current)) == candidate
  {
  }

  /** Rows kept by the deletions, less the cascaded ones, plus the insertions. */
  lemma KeptLessCascaded<V>(a: map<string, V>, b: map<string, V>, gone: set<string>)
    ensures (a - Differing(a, b) - gone).Keys !! Differing(b, a)
    ensures (a - Differing(a, b) - gone) + Restrict(b, Differing(b, a))
         == b - set s | s in a && s in b && a[s] == b[s] && s in gone
  {
  }

  lemma ClaimsSwapped(current: Tables, candidate: Tables)
    ensures var stale := Differing(current.claims, candidate.claims);
            var gone := Differing(current.results, candidate.results);
            var kept := current.claims - stale - gone;
            && kept.Keys !! Differing(candidate.claims, current.claims)
            && kept + Restrict(candidate.claims, Differing(candidate.claims, current.claims))
                 == candidate.claims - LostClaims(current, candidate)
  {
    var gone := Differing(current.results, candidate.results);
    KeptLessCascaded(current.claims, candidate.claims, gone);
    assert LostClaims(current, candidate)
        == set s | s in current.claims && s in candidate.claims
                   && current.claims[s] == candidate.claims[s] && s in gone;
  }

  /**
    For compatible states every statement of the eight loops is accepted; the result is the
    candidate except for the lost claims, and the counters count exactly the differing rows.
   */
  method ApplyRowChanges(db: Database, current: Tables, candidate: Tables) returns (r: Result<Changes, ConstraintError>)
    modifies db
    ensures old(db.tables) == current && Swappable(current, candidate, db.json) ==>
              && r == Ok(ChangeCounts(current, candidate)) && CountsRows(current, candidate, r.value)
              && db.tables == candidate.(claims := candidate.claims - LostClaims(current, candidate))
  {
    ghost var sound := db.tables == current && Swappable(current, candidate, db.json);
    ChangeCountsCountRows(current, candidate);
    var pendingDeleted := DeleteStalePending(db, current, candidate);
    var claimsDeleted := DeleteStaleClaims(db, current, candidate);
    if sound {
      FreeAfterPendingDeletes(current, candidate, db.json);
    }
    var resultsDeleted := DeleteStaleResults(db, current, candidate);
    if resultsDeleted.Err? {
      return Err(resultsDeleted.error);
    }
    var devicesDeleted := DeleteStaleDevices(db, current, candidate);
    var devicesUpserted := UpsertDevices(db, current, candidate);
    if devicesUpserted.Err? {
      return Err(devicesUpserted.error);
    }
    DevicesSwapped(current.devices, candidate.devices);
    KeptPlusInserted(current.results, candidate.results);
    var resultsInserted := InsertResults(db, current, candidate);
    if resultsInserted.Err? {
      return Err(resultsInserted.error);
    }
    ClaimsSwapped(current, candidate);
    var claimsInserted := InsertClaims(db, current, candidate);
    if claimsInserted.Err? {
      return Err(claimsInserted.error);
    }
    KeptPlusInserted(current.pending, candidate.pending);
    var pendingInserted := InsertPendings(db, current, candidate);
    if pendingInserted.Err? {
      return Err(pendingInserted.error);
    }
    return Ok(Changes(devicesUpserted.value, devicesDeleted, resultsInserted.value, resultsDeleted.value,
                      claimsInserted.value, claimsDeleted, pendingInserted.value, pendingDeleted));
  }
}
