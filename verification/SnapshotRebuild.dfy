/**
  The canonical form of a snapshot: from_parts and from_rows (snapshot.rs, snapshot_validation.rs)
  rebuild a validated snapshot from its rows, with the replay records in scope order and without
  empty queues. The tables determine exactly that form.
 */
module SnapshotRebuild {
  import opened Wrappers
  import opened Sorting
  import opened SnapshotTables
  import opened Snapshot

  // ---------------------------------------------------------------- the relational form loses nothing

  lemma ReplayIsCovered(k: Codec, a: ControlPlane, b: ControlPlane, r: ReplayRecord)
    requires Sound(k) && Valid(k, a) && Valid(k, b) && Relational(k, a).results == Relational(k, b).results
    requires r in a.replay
    ensures r in b.replay
  {
    var i :| 0 <= i < |a.replay| && a.replay[i] == r;
    ReplayRowAt(k, a.replay, i);
    var j := RowSource(k, b, r.scopeKey);
    assert a.replay[i] == FromCommand(k, a.replay[i].command) && b.replay[j] == FromCommand(k, b.replay[j].command);
    assert b.replay[j] == r;
  }

  lemma QueuesAreCovered(k: Codec, a: ControlPlane, b: ControlPlane, d: string, i: int)
    requires Sound(k) && Valid(k, a) && Valid(k, b) && Relational(k, a).pending == Relational(k, b).pending
    requires Queued(a, d, i)
    ensures Queued(b, d, i) && b.queues[d][i] == a.queues[d][i]
  {
    PendingRowAt(k, a, d, i);
    var e, j := PendingSource(k, b, a.queues[d][i].commandId);
    assert e == d && j == i;
  }

  lemma DevicesAgree(k: Codec, a: ControlPlane, b: ControlPlane)
    requires forall x, y :: k.deviceJson(x) == k.deviceJson(y) ==> x == y
    requires DeviceRows(k, a.devices) == DeviceRows(k, b.devices)
    ensures a.devices == b.devices
  {
    var ta, tb := DeviceRows(k, a.devices), DeviceRows(k, b.devices);
    assert ta.Keys == a.devices.Keys && tb.Keys == b.devices.Keys;
    forall n | n in a.devices ensures n in b.devices && a.devices[n] == b.devices[n] {
      assert ta[n] == k.deviceJson(a.devices[n]) && tb[n] == k.deviceJson(b.devices[n]);
    }
  }

  /** Everything replayed or queued in `a` is in `b`, at the same place. */
  ghost predicate CoveredBy(a: ControlPlane, b: ControlPlane) {
    && (forall r | r in a.replay :: r in b.replay)
    && (forall d, i | Queued(a, d, i) :: Queued(b, d, i) && b.queues[d][i] == a.queues[d][i])
  }

  lemma SameResultsCover(k: Codec, a: ControlPlane, b: ControlPlane)
    requires Sound(k) && Valid(k, a) && Valid(k, b) && Relational(k, a).results == Relational(k, b).results
    ensures forall r | r in a.replay :: r in b.replay
  {
    forall r | r in a.replay ensures r in b.replay {
      ReplayIsCovered(k, a, b, r);
    }
  }

  lemma SamePendingCover(k: Codec, a: ControlPlane, b: ControlPlane)
    requires Sound(k) && Valid(k, a) && Valid(k, b) && Relational(k, a).pending == Relational(k, b).pending
    ensures forall d, i | Queued(a, d, i) :: Queued(b, d, i) && b.queues[d][i] == a.queues[d][i]
  {
    forall d, i | Queued(a, d, i) ensures Queued(b, d, i) && b.queues[d][i] == a.queues[d][i] {
      QueuesAreCovered(k, a, b, d, i);
    }
  }

  lemma SameTablesCover(k: Codec, a: ControlPlane, b: ControlPlane)
    requires Sound(k) && Valid(k, a) && Valid(k, b) && Relational(k, a) == Relational(k, b)
    ensures CoveredBy(a, b)
  {
    SameResultsCover(k, a, b);
    SamePendingCover(k, a, b);
  }

  /**
    Two validated snapshots with the same tables are the same snapshot, up to the order of the
    replay records and queues without commands: equality of tables is equality of state.
   */
  lemma TablesDetermineSnapshot(k: Codec, a: ControlPlane, b: ControlPlane)
    requires Sound(k) && (forall x, y :: k.deviceJson(x) == k.deviceJson(y) ==> x == y)
    requires Valid(k, a) && Valid(k, b) && Relational(k, a) == Relational(k, b)
    ensures a.devices == b.devices && CoveredBy(a, b) && CoveredBy(b, a)
  {
    DevicesAgree(k, a, b);
    SameTablesCover(k, a, b);
    SameTablesCover(k, b, a);
  }

  // ---------------------------------------------------------------- rebuilding

  predicate ScopeLe(a: ReplayRecord, b: ReplayRecord) {
    StringLe(a.scopeKey, b.scopeKey)
  }

  predicate SameScope(a: ReplayRecord, b: ReplayRecord) {
    a.scopeKey == b.scopeKey
  }

  predicate SameCommandId(a: ReplayRecord, b: ReplayRecord) {
    a.command.commandId == b.command.commandId
  }

  /** What from_rows makes of the rows of a snapshot. */
  function Rebuilt(s: ControlPlane): ControlPlane {
    ControlPlane(s.devices, map d | d in s.queues && s.queues[d] != [] :: s.queues[d], Sort(s.replay, ScopeLe))
  }

  lemma ScopeLeIsPreorder()
    ensures TotalPreorder(ScopeLe)
  {
    forall a, b ensures ScopeLe(a, b) || ScopeLe(b, a) {
      StringLeTotal(a.scopeKey, b.scopeKey);
    }
    forall a, b, c | ScopeLe(a, b) && ScopeLe(b, c) ensures ScopeLe(a, c) {
      StringLeTransitive(a.scopeKey, b.scopeKey, c.scopeKey);
    }
  }

  lemma RebuiltQueues(s: ControlPlane)
    ensures forall d, i :: Queued(Rebuilt(s), d, i) <==> Queued(s, d, i)
    ensures forall d, i | Queued(s, d, i) :: Rebuilt(s).queues[d][i] == s.queues[d][i]
    ensures PendingPositions(Rebuilt(s)) == PendingPositions(s)
  {
  }

  lemma RebuiltReplay(k: Codec, s: ControlPlane)
    requires ValidReplay(k, s)
    ensures ValidReplay(k, Rebuilt(s))
    ensures forall r :: r in Rebuilt(s).replay <==> r in s.replay
  {
    var replay := Rebuilt(s).replay;
    SortMembers(s.replay, ScopeLe);
    SortKeepsSeparated(s.replay, ScopeLe, SameScope);
    SortKeepsSeparated(s.replay, ScopeLe, SameCommandId);
    forall i | 0 <= i < |replay|
      ensures replay[i].command.deviceId != "" && replay[i] == FromCommand(k, replay[i].command)
    {
      assert replay[i] in replay;
    }
    forall i, j | 0 <= i < j < |replay|
      ensures replay[i].scopeKey != replay[j].scopeKey && replay[i].command.commandId != replay[j].command.commandId
    {
      assert !SameScope(replay[i], replay[j]) && !SameCommandId(replay[i], replay[j]);
    }
  }

  /** A rebuilt snapshot lists its replay records by ascending scope text, and only queues that hold something. */
  lemma RebuiltIsCanonical(k: Codec, s: ControlPlane)
    requires ValidReplay(k, s)
    ensures var t := Rebuilt(s);
            && t.devices == s.devices
            && (forall i, j | 0 <= i < j < |t.replay| ::
                  StringLe(t.replay[i].scopeKey, t.replay[j].scopeKey) && t.replay[i].scopeKey != t.replay[j].scopeKey)
            && multiset(t.replay) == multiset(s.replay)
            && (forall d :: d in t.queues <==> d in s.queues && |s.queues[d]| > 0)
            && (forall d | d in t.queues :: t.queues[d] == s.queues[d])
  {
    var t := Rebuilt(s);
    ScopeLeIsPreorder();
    SortSorts(s.replay, ScopeLe);
    SortMultiset(s.replay, ScopeLe);
    RebuiltReplay(k, s);
    forall i, j | 0 <= i < j < |t.replay| ensures StringLe(t.replay[i].scopeKey, t.replay[j].scopeKey) {
      assert ScopeLe(t.replay[i], t.replay[j]);
    }
  }

  /** Rebuilding keeps a snapshot valid and loses nothing of it. */
  lemma RebuiltIsValid(k: Codec, s: ControlPlane)
    requires Valid(k, s)
    ensures Valid(k, Rebuilt(s)) && CoveredBy(s, Rebuilt(s)) && CoveredBy(Rebuilt(s), s)
  {
    RebuiltQueues(s);
    RebuiltReplay(k, s);
    var t := Rebuilt(s);
    forall d, i | Queued(t, d, i) ensures d != "" && t.queues[d][i].deviceId == d && Replayed(t, t.queues[d][i]) {
      assert Replayed(s, s.queues[d][i]);
      var j :| 0 <= j < |s.replay| && s.replay[j].command == s.queues[d][i];
      assert s.replay[j] in t.replay;
    }
  }

  lemma SameReplayRows(k: Codec, a: ControlPlane, b: ControlPlane)
    requires Valid(k, a) && Valid(k, b) && forall r | r in a.replay :: r in b.replay
    ensures forall x | x in ResultRows(k, a.replay) ::
              x in ResultRows(k, b.replay) && ResultRows(k, b.replay)[x] == ResultRows(k, a.replay)[x]
    ensures forall x | x in ClaimRows(a.replay) ::
              x in ClaimRows(b.replay) && ClaimRows(b.replay)[x] == ClaimRows(a.replay)[x]
  {
    forall x | x in ResultRows(k, a.replay)
      ensures x in ResultRows(k, b.replay) && ResultRows(k, b.replay)[x] == ResultRows(k, a.replay)[x]
    {
      SameRowsAt(k, a, b, x);
    }
    forall x | x in ClaimRows(a.replay)
      ensures x in ClaimRows(b.replay) && ClaimRows(b.replay)[x] == ClaimRows(a.replay)[x]
    {
      SameRowsAt(k, a, b, x);
    }
  }

  lemma SameRowsAt(k: Codec, a: ControlPlane, b: ControlPlane, x: string)
    requires Valid(k, a) && Valid(k, b) && forall r | r in a.replay :: r in b.replay
    requires x in ResultRows(k, a.replay) || x in ClaimRows(a.replay)
    ensures x in ResultRows(k, a.replay) && x in ResultRows(k, b.replay)
    ensures x in ClaimRows(a.replay) && x in ClaimRows(b.replay)
    ensures ResultRows(k, b.replay)[x] == ResultRows(k, a.replay)[x] && ClaimRows(b.replay)[x] == ClaimRows(a.replay)[x]
  {
    var i := RowSource(k, a, x);
    assert a.replay[i] in b.replay;
    var j :| 0 <= j < |b.replay| && b.replay[j] == a.replay[i];
    ReplayRowAt(k, b.replay, j);
    ReplayRowAt(k, a.replay, i);
  }

  lemma SamePendingRows(k: Codec, a: ControlPlane, b: ControlPlane)
    requires ValidPending(a) && ValidPending(b) && CoveredBy(a, b)
    ensures forall id | id in PendingRows(k, a) ::
              id in PendingRows(k, b) && PendingRows(k, b)[id] == PendingRows(k, a)[id]
  {
    forall id | id in PendingRows(k, a)
      ensures id in PendingRows(k, b) && PendingRows(k, b)[id] == PendingRows(k, a)[id]
    {
      var d, i := PendingSource(k, a, id);
      PendingRowAt(k, b, d, i);
    }
  }

  lemma SameReplayTables(k: Codec, a: ControlPlane, b: ControlPlane)
    requires Valid(k, a) && Valid(k, b) && CoveredBy(a, b) && CoveredBy(b, a)
    ensures ResultRows(k, a.replay) == ResultRows(k, b.replay) && ClaimRows(a.replay) == ClaimRows(b.replay)
  {
    SameReplayRows(k, a, b);
    SameReplayRows(k, b, a);
  }

  lemma SamePendingTables(k: Codec, a: ControlPlane, b: ControlPlane)
    requires ValidPending(a) && ValidPending(b) && CoveredBy(a, b) && CoveredBy(b, a)
    ensures PendingRows(k, a) == PendingRows(k, b)
  {
    SamePendingRows(k, a, b);
    SamePendingRows(k, b, a);
  }

  /** A snapshot and its rebuilt form have the same tables. */
  lemma RebuiltHasSameTables(k: Codec, s: ControlPlane)
    requires Valid(k, s)
    ensures Valid(k, Rebuilt(s)) && Relational(k, Rebuilt(s)) == Relational(k, s)
  {
    RebuiltIsValid(k, s);
    SameReplayTables(k, s, Rebuilt(s));
    SamePendingTables(k, s, Rebuilt(s));
  }

  lemma ScopesAreAntisymmetric(k: Codec, s: ControlPlane, sorted: seq<ReplayRecord>)
    requires ValidReplay(k, s) && forall r :: r in sorted <==> r in s.replay
    ensures AntisymmetricOn(sorted, ScopeLe)
  {
    forall p, q | p in sorted && q in sorted && ScopeLe(p, q) && ScopeLe(q, p) ensures p == q {
      StringLeAntisymmetric(p.scopeKey, q.scopeKey);
      var i :| 0 <= i < |s.replay| && s.replay[i] == p;
      var j :| 0 <= j < |s.replay| && s.replay[j] == q;
    }
  }

  lemma RecordsAreDistinct(k: Codec, s: ControlPlane)
    requires ValidReplay(k, s)
    ensures NoRepeats(s.replay)
  {
  }

  lemma SameReplayRebuilt(k: Codec, a: ControlPlane, b: ControlPlane)
    requires ValidReplay(k, a) && ValidReplay(k, b) && forall r :: r in a.replay <==> r in b.replay
    ensures Sort(a.replay, ScopeLe) == Sort(b.replay, ScopeLe)
  {
    ScopeLeIsPreorder();
    SortSorts(a.replay, ScopeLe);
    SortSorts(b.replay, ScopeLe);
    SortMembers(a.replay, ScopeLe);
    SortMultiset(a.replay, ScopeLe);
    SortMultiset(b.replay, ScopeLe);
    RecordsAreDistinct(k, a);
    RecordsAreDistinct(k, b);
    SameMembersSameMultiset(a.replay, b.replay);
    ScopesAreAntisymmetric(k, a, Sort(a.replay, ScopeLe));
    SortedUnique(Sort(a.replay, ScopeLe), Sort(b.replay, ScopeLe), ScopeLe);
  }

  lemma SameLengths(a: ControlPlane, b: ControlPlane, d: string)
    requires CoveredBy(a, b) && d in a.queues && a.queues[d] != []
    ensures d in b.queues && |a.queues[d]| <= |b.queues[d]|
    ensures forall i | 0 <= i < |a.queues[d]| :: b.queues[d][i] == a.queues[d][i]
  {
    assert Queued(a, d, |a.queues[d]| - 1);
    forall i | 0 <= i < |a.queues[d]| ensures Queued(b, d, i) && b.queues[d][i] == a.queues[d][i] {
      assert Queued(a, d, i);
    }
  }

  lemma SameQueuesRebuilt(a: ControlPlane, b: ControlPlane)
    requires CoveredBy(a, b) && CoveredBy(b, a)
    ensures forall d | d in Rebuilt(a).queues :: d in Rebuilt(b).queues && Rebuilt(b).queues[d] == Rebuilt(a).queues[d]
  {
    forall d | d in a.queues && a.queues[d] != [] ensures d in b.queues && b.queues[d] == a.queues[d] {
      SameLengths(a, b, d);
      SameLengths(b, a, d);
    }
  }

  lemma SameTablesRebuildAlike(k: Codec, a: ControlPlane, b: ControlPlane)
    requires Sound(k) && (forall x, y :: k.deviceJson(x) == k.deviceJson(y) ==> x == y)
    requires Valid(k, a) && Valid(k, b) && Relational(k, a) == Relational(k, b)
    ensures Rebuilt(a) == Rebuilt(b)
  {
    TablesDetermineSnapshot(k, a, b);
    SameStateRebuildsAlike(k, a, b);
  }

  lemma SameStateRebuildsAlike(k: Codec, a: ControlPlane, b: ControlPlane)
    requires ValidReplay(k, a) && ValidReplay(k, b) && a.devices == b.devices && CoveredBy(a, b) && CoveredBy(b, a)
    ensures Rebuilt(a) == Rebuilt(b)
  {
    SameReplayRebuilt(k, a, b);
    SameQueuesRebuilt(a, b);
    SameQueuesRebuilt(b, a);
    assert Rebuilt(a).queues == Rebuilt(b).queues;
  }

  /** The tables determine the rebuilt form, and nothing more: equal tables are equal rebuilt snapshots. */
  lemma TablesDetermineRebuilt(k: Codec, a: ControlPlane, b: ControlPlane)
    requires Sound(k) && (forall x, y :: k.deviceJson(x) == k.deviceJson(y) ==> x == y)
    requires Valid(k, a) && Valid(k, b)
    ensures Relational(k, a) == Relational(k, b) <==> Rebuilt(a) == Rebuilt(b)
  {
    if Relational(k, a) == Relational(k, b) {
      SameTablesRebuildAlike(k, a, b);
    } else if Rebuilt(a) == Rebuilt(b) {
      RebuiltHasSameTables(k, a);
      RebuiltHasSameTables(k, b);
    }
  }

  /** from_parts: the parts become rows, the rows are validated, and the snapshot is rebuilt from them. */
  method FromParts(k: Codec, s: ControlPlane) returns (r: Result<ControlPlane, SnapshotViolation>)
    ensures r.Ok? <==> Valid(k, s)
    ensures r.Ok? ==> r.value == Rebuilt(s) && Valid(k, r.value) && Relational(k, r.value) == Relational(k, s)
    ensures r.Err? ==> Violates(k, s, r.error)
  {
    var valid := Validate(k, s);
    if valid.Err? {
      return Err(valid.error);
    }
    RebuiltHasSameTables(k, s);
    return Ok(Rebuilt(s));
  }
}
