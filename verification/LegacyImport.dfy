/**
  normalize_commands and the consuming loop of parse_legacy_json
  (crates/control-plane-sqlite/src/legacy_json_import.rs): four collections are rewritten in
  place until they describe one replay history.
 */
module LegacyImport {
  import opened Wrappers
  import opened Counting
  import opened Sorting
  import opened Snapshot
  import opened LegacyOrder
  import opened LegacyCanonical
  import opened LegacyClaims
  import opened SnapshotRebuild

  type Queues = map<string, seq<Command>>

  predicate InQueue(queues: Queues, d: string, i: int) {
    d in queues && 0 <= i < |queues[d]|
  }

  predicate CommandIsPending(queues: Queues, id: CommandId) {
    exists d | d in queues :: exists c | c in queues[d] :: c.commandId == id
  }

  /** A command is pending exactly when some place in some queue holds its id. */
  lemma PendingIff(queues: Queues, id: CommandId)
    ensures CommandIsPending(queues, id) <==> exists d, i :: InQueue(queues, d, i) && queues[d][i].commandId == id
  {
    if CommandIsPending(queues, id) {
      var d :| d in queues && exists c | c in queues[d] :: c.commandId == id;
      var c :| c in queues[d] && c.commandId == id;
      var i :| 0 <= i < |queues[d]| && queues[d][i] == c;
      assert InQueue(queues, d, i);
    }
    if d, i :| InQueue(queues, d, i) && queues[d][i].commandId == id {
      assert queues[d][i] in queues[d];
    }
  }

  // ---------------------------------------------------------------- what normalisation means

  /** The results before eviction: every stored and every queued command, under its canonical key. */
  ghost predicate IsFull(k: Codec, entries: Results, queues: Queues, full: Results) {
    && (forall key | key in entries ::
          ScopeOf(k, entries[key]) in full && full[ScopeOf(k, entries[key])] == entries[key])
    && (forall d, i | InQueue(queues, d, i) ::
          && queues[d][i].deviceId == d
          && ScopeOf(k, queues[d][i]) in full && full[ScopeOf(k, queues[d][i])] == queues[d][i])
    && (forall x | x in full ::
          || (exists key :: key in entries && ScopeOf(k, entries[key]) == x)
          || (exists d, i :: InQueue(queues, d, i) && ScopeOf(k, queues[d][i]) == x))
  }

  predicate OrderMatches(order: seq<string>, results: Results) {
    NoRepeats(order) && Elements(order) == results.Keys
  }

  function Evictable(queues: Queues, results: Results): set<string> {
    set x | x in results && !CommandIsPending(queues, results[x].commandId)
  }

  /** The keys eviction must not touch. */
  function PendingKeys(queues: Queues, results: Results): set<string> {
    results.Keys - Evictable(queues, results)
  }

  function Excess(order: seq<string>): nat {
    if |order| > MAX_IDEMPOTENCY_RESULTS then |order| - MAX_IDEMPOTENCY_RESULTS else 0
  }

  /** The cap in numbers: an order loses what it has beyond a thousand keys. */
  lemma ExcessIs(order: seq<string>)
    ensures Excess(order) == if |order| > 1_000 then |order| - 1_000 else 0
  {
  }

  function Keep(m: Results, keys: set<string>): Results {
    map x | x in m && x in keys :: m[x]
  }

  /** The collections a successful normalisation leaves, given what it started from. */
  ghost predicate NormalForm(
    k: Codec, queues: Queues, entries: Results, original: seq<string>,
    full: Results, rebuilt: seq<string>, results: Results, claims: ClaimMap, order: seq<string>)
  {
    && IsFull(k, entries, queues, full)
    && IsRebuilt(original, full.Keys, rebuilt)
    && order == EvictFirst(rebuilt, Evictable(queues, full), Excess(rebuilt))
    && results == Keep(full, Elements(order))
    && IsClaimTable(results, claims)
  }

  lemma FullIsUnique(k: Codec, entries: Results, queues: Queues, a: Results, b: Results)
    requires IsFull(k, entries, queues, a) && IsFull(k, entries, queues, b)
    ensures a == b
  {
    FullWithin(k, entries, queues, a, b);
    FullWithin(k, entries, queues, b, a);
  }

  lemma FullWithin(k: Codec, entries: Results, queues: Queues, a: Results, b: Results)
    requires IsFull(k, entries, queues, a) && IsFull(k, entries, queues, b)
    ensures forall x | x in a :: x in b && a[x] == b[x]
  {
    forall x | x in a ensures x in b && a[x] == b[x] {
      if key :| key in entries && ScopeOf(k, entries[key]) == x {
      } else {
        var d, i :| InQueue(queues, d, i) && ScopeOf(k, queues[d][i]) == x;
      }
    }
  }

  lemma ClaimTableIsUnique(results: Results, a: ClaimMap, b: ClaimMap)
    requires IsClaimTable(results, a) && IsClaimTable(results, b)
    ensures a == b
  {
    forall key | key in a ensures key in b && a[key] == b[key] {
      var x :| x in results && LegacyScope(results[x]) == key;
    }
    forall key | key in b ensures key in a {
      var x :| x in results && LegacyScope(results[x]) == key;
    }
  }

  /** Confluence: whatever order the hash maps yield their entries in, all successful runs end alike. */
  lemma NormalFormIsUnique(
    k: Codec, queues: Queues, entries: Results, original: seq<string>,
    full: Results, rebuilt: seq<string>, results: Results, claims: ClaimMap, order: seq<string>,
    full': Results, rebuilt': seq<string>, results': Results, claims': ClaimMap, order': seq<string>)
    requires NormalForm(k, queues, entries, original, full, rebuilt, results, claims, order)
    requires NormalForm(k, queues, entries, original, full', rebuilt', results', claims', order')
    ensures results == results' && claims == claims' && order == order'
  {
    FullIsUnique(k, entries, queues, full, full');
    RebuiltIsUnique(original, full.Keys, rebuilt, rebuilt');
    ClaimTableIsUnique(results, claims, claims');
  }

  // ---------------------------------------------------------------- settled states

  ghost predicate CanonicallyKeyed(k: Codec, results: Results) {
    forall x | x in results :: ScopeOf(k, results[x]) == x
  }

  ghost predicate QueuedHaveResults(k: Codec, queues: Queues, results: Results) {
    forall d, i | InQueue(queues, d, i) ::
      && queues[d][i].deviceId == d
      && ScopeOf(k, queues[d][i]) in results && results[ScopeOf(k, queues[d][i])] == queues[d][i]
  }

  /** Nothing is left to normalise. */
  ghost predicate Settled(k: Codec, queues: Queues, results: Results, claims: ClaimMap, order: seq<string>) {
    && CanonicallyKeyed(k, results)
    && QueuedHaveResults(k, queues, results)
    && IsClaimTable(results, claims)
    && OrderMatches(order, results)
    && |order| <= MAX_IDEMPOTENCY_RESULTS
  }

  /**
    What a legacy state must be like for normalisation to succeed in every map order: its stored
    and queued commands agree, none is filed under another's canonical key, the key spaces do not
    overlap, its claims fit and the pending results are within the cap.
   */
  ghost predicate Acceptable(k: Codec, queues: Queues, entries: Results, claims: ClaimMap, full: Results) {
    && IsFull(k, entries, queues, full)
    && NothingMisfiled(k, entries)
    && KeySpacesDisjoint(full)
    && LegacyInjective(full)
    && ClaimsFit(full, claims)
    && |PendingKeys(queues, full)| <= MAX_IDEMPOTENCY_RESULTS
  }

  lemma FullIsConsistent(k: Codec, queues: Queues, entries: Results, full: Results)
    requires IsFull(k, entries, queues, full)
    ensures Consistent(k, entries)
  {
  }

  lemma CanonicalWithin(k: Codec, queues: Queues, entries: Results, canonical: Results, full: Results)
    requires IsFull(k, entries, queues, full) && IsCanonical(k, entries, canonical)
    ensures Sub(canonical, full)
  {
    forall x | x in canonical ensures x in full && canonical[x] == full[x] {
      var key :| key in entries && ScopeOf(k, entries[key]) == x;
    }
  }

  lemma FullFacts(k: Codec, entries: Results, queues: Queues, full: Results)
    requires IsFull(k, entries, queues, full)
    ensures CanonicallyKeyed(k, full) && QueuedHaveResults(k, queues, full)
  {
    forall x | x in full ensures ScopeOf(k, full[x]) == x {
      if key :| key in entries && ScopeOf(k, entries[key]) == x {
      } else {
        var d, i :| InQueue(queues, d, i) && ScopeOf(k, queues[d][i]) == x;
      }
    }
  }

  lemma QueuedIsPending(queues: Queues, d: string, i: int)
    requires InQueue(queues, d, i)
    ensures CommandIsPending(queues, queues[d][i].commandId)
  {
    assert queues[d][i] in queues[d];
  }

  /** Eviction never takes the result of a queued command. */
  lemma QueuedSurvive(k: Codec, queues: Queues, full: Results, kept: set<string>)
    requires QueuedHaveResults(k, queues, full)
    requires forall x | x in full && x !in Evictable(queues, full) :: x in kept
    ensures QueuedHaveResults(k, queues, Keep(full, kept))
  {
    forall d, i | InQueue(queues, d, i)
      ensures ScopeOf(k, queues[d][i]) in kept
    {
      QueuedIsPending(queues, d, i);
    }
  }

  lemma KeptOrder(full: Results, rebuilt: seq<string>, evictable: set<string>)
    requires NoRepeats(rebuilt) && Elements(rebuilt) == full.Keys
    requires Pinned(rebuilt, evictable) <= MAX_IDEMPOTENCY_RESULTS
    ensures var order := EvictFirst(rebuilt, evictable, Excess(rebuilt));
            && OrderMatches(order, Keep(full, Elements(order)))
            && |order| <= MAX_IDEMPOTENCY_RESULTS
            && forall x | x in full && x !in evictable :: x in Elements(order)
  {
    PinnedBound(rebuilt, evictable);
    EvictFacts(rebuilt, evictable, Excess(rebuilt));
    var order := EvictFirst(rebuilt, evictable, Excess(rebuilt));
    assert forall x | x in full && x !in evictable :: x in Elements(rebuilt) && x in Elements(order);
    assert forall x | x in Elements(order) :: x in Elements(rebuilt);
    assert Keep(full, Elements(order)).Keys == Elements(order);
  }

  /**
    A normal form is settled: results are keyed canonically, every queued command still has its
    result, the order lists each key exactly once and the cap holds.
   */
  lemma NormalFormIsSettled(
    k: Codec, queues: Queues, entries: Results, original: seq<string>,
    full: Results, rebuilt: seq<string>, results: Results, claims: ClaimMap, order: seq<string>)
    requires NormalForm(k, queues, entries, original, full, rebuilt, results, claims, order)
    requires |PendingKeys(queues, full)| <= MAX_IDEMPOTENCY_RESULTS
    ensures Settled(k, queues, results, claims, order)
  {
    FullFacts(k, entries, queues, full);
    PinnedCounts(rebuilt, Evictable(queues, full));
    KeptOrder(full, rebuilt, Evictable(queues, full));
    QueuedSurvive(k, queues, full, Elements(order));
  }

  // ---------------------------------------------------------------- the operations

  /** The commands handled so far: queues outside `todo`, and the first `n` of queue `d`. */
  ghost predicate Handled(queues: Queues, todo: set<string>, d: string, n: int, e: string, i: int) {
    InQueue(queues, e, i) && (e !in todo || (e == d && i < n))
  }

  /** `base` completed with the results of the commands handled so far. */
  ghost predicate Recovered(
      k: Codec, queues: Queues, base: Results, results: Results, todo: set<string>, d: string, n: int)
  {
    && (forall x | x in base :: x in results && results[x] == base[x])
    && (forall e, i | Handled(queues, todo, d, n, e, i) ::
          && queues[e][i].deviceId == e
          && ScopeOf(k, queues[e][i]) in results && results[ScopeOf(k, queues[e][i])] == queues[e][i])
    && (forall x | x in results ::
          x in base || exists e, i :: Handled(queues, todo, d, n, e, i) && ScopeOf(k, queues[e][i]) == x)
  }

  lemma KeyedStays(k: Codec, results: Results, canonical: Results)
    requires CanonicallyKeyed(k, results) && IsCanonical(k, results, canonical)
    ensures canonical == results && Misplaced(k, results) == {}
  {
    CanonicalIsUnique(k, results, results, canonical);
  }

  lemma RecoveredGrows(
    k: Codec, queues: Queues, base: Results, results: Results, results': Results, todo: set<string>, d: string, n: nat)
    requires Recovered(k, queues, base, results, todo, d, n) && d in todo && InQueue(queues, d, n)
    requires queues[d][n].deviceId == d
    requires ScopeOf(k, queues[d][n]) in results ==> results[ScopeOf(k, queues[d][n])] == queues[d][n]
    requires results' == results[ScopeOf(k, queues[d][n]) := queues[d][n]]
    ensures Recovered(k, queues, base, results', todo, d, n + 1)
  {
    forall e, i | Handled(queues, todo, d, n + 1, e, i)
      ensures && queues[e][i].deviceId == e
              && ScopeOf(k, queues[e][i]) in results' && results'[ScopeOf(k, queues[e][i])] == queues[e][i]
    {
      if !(e == d && i == n) {
        assert Handled(queues, todo, d, n, e, i);
      }
    }
    forall x | x in results'
      ensures x in base || exists e, i :: Handled(queues, todo, d, n + 1, e, i) && ScopeOf(k, queues[e][i]) == x
    {
      if x == ScopeOf(k, queues[d][n]) {
        assert Handled(queues, todo, d, n + 1, d, n);
      } else if x !in base {
        var e, i :| Handled(queues, todo, d, n, e, i) && ScopeOf(k, queues[e][i]) == x;
        assert Handled(queues, todo, d, n + 1, e, i);
      }
    }
  }

  lemma HandledShifts(queues: Queues, todo: set<string>, d: string, e: string, i: int)
    ensures Handled(queues, todo, "", 0, e, i) <==> Handled(queues, todo, d, 0, e, i)
    ensures d in queues ==>
              (Handled(queues, todo, d, |queues[d]|, e, i) <==> Handled(queues, todo - {d}, "", 0, e, i))
  {
  }

  lemma RecoveredStarts(k: Codec, queues: Queues, base: Results, results: Results, todo: set<string>, d: string)
    requires Recovered(k, queues, base, results, todo, "", 0)
    ensures Recovered(k, queues, base, results, todo, d, 0)
  {
    forall e, i {
      HandledShifts(queues, todo, d, e, i);
    }
  }

  lemma RecoveredEnds(k: Codec, queues: Queues, base: Results, results: Results, todo: set<string>, d: string)
    requires d in queues && Recovered(k, queues, base, results, todo, d, |queues[d]|)
    ensures Recovered(k, queues, base, results, todo - {d}, "", 0)
  {
    forall e, i {
      HandledShifts(queues, todo, d, e, i);
    }
  }

  // ---------------------------------------------------------------- orders of moving

  /** Some order of the results moves `before` to `after`. */
  ghost predicate SomeMove(results: Results, before: ClaimMap, after: ClaimMap) {
    exists keys :: Taken(results, keys, {}) && MoveRun(results, before, keys).Some?
                   && MoveRun(results, before, keys).value.0 == after
  }

  /** In some order, a conflict turns up. */
  ghost predicate SomeMoveFails(results: Results, before: ClaimMap) {
    exists keys, rest :: Taken(results, keys, rest) && MoveRun(results, before, keys).None?
  }

  lemma AllClaimed(results: Results, claims: ClaimMap, keys: seq<string>)
    requires Taken(results, keys, {})
    ensures Claimed(claims, keys) == results.Keys * claims.Keys
  {
    forall key | key in results ensures key in keys {
      assert key !in Rest(results, keys);
    }
  }

  lemma MovedInOrder(results: Results, before: ClaimMap, keys: seq<string>, claims: ClaimMap, dropped: nat)
    requires Taken(results, keys, {}) && MoveRun(results, before, keys) == Some((claims, dropped))
    ensures SomeMove(results, before, claims)
    ensures KeySpacesDisjoint(results) ==>
              MovedSoFar(results, before, claims, {}) && dropped == |results.Keys * before.Keys|
    ensures KeySpacesDisjoint(results) && IsClaimTable(results, before) ==> claims == before && dropped == 0
  {
    if KeySpacesDisjoint(results) {
      MoveRunIsClean(results, before, keys, {});
      AllClaimed(results, before, keys);
      if IsClaimTable(results, before) {
        MoveRunSettled(results, before, keys);
      }
    }
  }

  lemma StoppedInOrder(
    k: Codec, queues: Queues, results: Results, before: ClaimMap, target: ClaimMap,
    keys: seq<string>, rest: set<string>)
    requires Taken(results, keys, rest) && MoveRun(results, before, keys) == None
    ensures SomeMoveFails(results, before)
    ensures !(Reachable(k, queues, results, target) && Sub(before, target))
    ensures !(IsClaimTable(results, before) && KeySpacesDisjoint(results))
  {
    if Reachable(k, queues, results, target) && Sub(before, target) {
      MoveRunWithin(results, before, target, keys);
    }
    if IsClaimTable(results, before) && KeySpacesDisjoint(results) {
      MoveRunSettled(results, before, keys);
    }
  }

  // ---------------------------------------------------------------- what the passes stay within

  /** Nothing is missing for any queued command. */
  ghost predicate QueuesSettled(k: Codec, queues: Queues, results: Results, claims: ClaimMap) {
    && QueuedHaveResults(k, queues, results)
    && forall x | x in results ::
         LegacyScope(results[x]) in claims && claims[LegacyScope(results[x])] == results[x].commandId
  }

  /** The results and claims so far are part of what a successful run reaches. */
  ghost predicate Within(full: Results, target: ClaimMap, results: Results, claims: ClaimMap) {
    Sub(results, full) && Sub(claims, target)
  }

  ghost predicate Reachable(k: Codec, queues: Queues, full: Results, target: ClaimMap) {
    && QueuedHaveResults(k, queues, full)
    && forall x | x in full :: LegacyScope(full[x]) in target && ClaimMovable(target, x, full[x])
  }

  ghost predicate Completable(
      k: Codec, queues: Queues, entries: Results, claims: ClaimMap, full: Results, target: ClaimMap)
  {
    && IsFull(k, entries, queues, full)
    && NothingMisfiled(k, entries)
    && Reachable(k, queues, full, target)
    && Sub(claims, target)
  }

  /** Within reach of a full result set, the next queued command meets no conflict. */
  lemma ReachableCommand(
    k: Codec, queues: Queues, full: Results, target: ClaimMap, results: Results, claims: ClaimMap, d: string, n: nat)
    requires Reachable(k, queues, full, target) && Within(full, target, results, claims) && InQueue(queues, d, n)
    ensures var c := queues[d][n];
            && c.deviceId == d
            && (ScopeOf(k, c) in results ==> results[ScopeOf(k, c)] == c)
            && (LegacyScope(c) in claims ==> claims[LegacyScope(c)] == c.commandId)
            && Within(full, target, results[ScopeOf(k, c) := c], claims[LegacyScope(c) := c.commandId])
  {
    TargetMoves(full, claims, target, ScopeOf(k, queues[d][n]));
  }

  lemma SettledCommand(k: Codec, queues: Queues, results: Results, claims: ClaimMap, d: string, n: nat)
    requires QueuesSettled(k, queues, results, claims) && InQueue(queues, d, n)
    ensures var c := queues[d][n];
            && c.deviceId == d
            && ScopeOf(k, c) in results && results[ScopeOf(k, c)] == c
            && LegacyScope(c) in claims && claims[LegacyScope(c)] == c.commandId
            && results[ScopeOf(k, c) := c] == results && claims[LegacyScope(c) := c.commandId] == claims
  {
  }

  ghost predicate IsQueuedKey(queues: Queues, key: string) {
    exists d, i :: InQueue(queues, d, i) && LegacyScope(queues[d][i]) == key
  }

  /** Claims have only been added, and only for queued commands. */
  ghost predicate Extends(queues: Queues, before: ClaimMap, claims: ClaimMap) {
    Sub(before, claims) && forall key | key in claims :: key in before || IsQueuedKey(queues, key)
  }

  lemma ExtendsOn(queues: Queues, a: ClaimMap, b: ClaimMap, c: ClaimMap)
    requires Extends(queues, a, b) && Extends(queues, b, c)
    ensures Extends(queues, a, c)
  {
  }

  lemma ClaimAdded(queues: Queues, claims: ClaimMap, d: string, n: nat)
    requires InQueue(queues, d, n)
    requires LegacyScope(queues[d][n]) in claims ==> claims[LegacyScope(queues[d][n])] == queues[d][n].commandId
    ensures Extends(queues, claims, claims[LegacyScope(queues[d][n]) := queues[d][n].commandId])
  {
    assert IsQueuedKey(queues, LegacyScope(queues[d][n]));
  }

  datatype Stats = Stats(
    recoveredResults: nat,
    recoveredClaims: nat,
    canonicalizedKeys: nat,
    removedCanonicalClaims: nat,
    rebuiltOrder: bool,
    evictedResults: nat)

  /** Only results and claims were recovered in between. */
  predicate OnlyRecoveries(before: Stats, after: Stats) {
    after == before.(recoveredResults := after.recoveredResults, recoveredClaims := after.recoveredClaims)
  }

  /** Only claims were recovered and dropped in between. */
  predicate OnlyClaimMoves(before: Stats, after: Stats) {
    after == before.(recoveredClaims := after.recoveredClaims, removedCanonicalClaims := after.removedCanonicalClaims)
  }

  /** The canonical keys of the stored results. */
  function CanonicalKeys(k: Codec, entries: Results): set<string> {
    set x | x in entries :: ScopeOf(k, entries[x])
  }

  lemma CanonicalSize(k: Codec, entries: Results, canonical: Results)
    requires IsCanonical(k, entries, canonical)
    ensures |canonical| == |CanonicalKeys(k, entries)|
  {
    assert canonical.Keys == CanonicalKeys(k, entries);
  }

  /** What the counters say once results are completed and claims moved. */
  ghost predicate CountedUpTo(
    k: Codec, entries: Results, claims0: ClaimMap, before: Stats, results: Results, claims: ClaimMap, after: Stats)
  {
    && after.canonicalizedKeys == before.canonicalizedKeys + |Misplaced(k, entries)|
    && after.recoveredResults == before.recoveredResults + |results| - |CanonicalKeys(k, entries)|
    && after.recoveredClaims - before.recoveredClaims
         == |claims| - |claims0| + after.removedCanonicalClaims - before.removedCanonicalClaims
    && after.rebuiltOrder == before.rebuiltOrder
    && after.evictedResults == before.evictedResults
  }

  ghost predicate Counted(
    k: Codec, entries: Results, claims0: ClaimMap, original: seq<string>, before: Stats,
    full: Results, moved: ClaimMap, rebuilt: seq<string>, after: Stats)
  {
    && CountedUpTo(k, entries, claims0, before, full, moved,
                   after.(rebuiltOrder := before.rebuiltOrder, evictedResults := before.evictedResults))
    && (KeySpacesDisjoint(full) ==>
          after.removedCanonicalClaims == before.removedCanonicalClaims + |full.Keys * claims0.Keys|)
    && after.rebuiltOrder == (rebuilt != original)
    && after.evictedResults == before.evictedResults + Excess(rebuilt)
  }

  /**
    The report of a successful run: keys moved, results recovered, results evicted and whether
    the order changed; with disjoint key spaces also the canonical claims dropped and the legacy
    claims that were missing.
   */
  ghost predicate Reported(
    k: Codec, entries: Results, claims0: ClaimMap, original: seq<string>, before: Stats,
    full: Results, rebuilt: seq<string>, after: Stats)
  {
    && after.canonicalizedKeys == before.canonicalizedKeys + |Misplaced(k, entries)|
    && after.recoveredResults == before.recoveredResults + |full| - |CanonicalKeys(k, entries)|
    && after.rebuiltOrder == (rebuilt != original)
    && after.evictedResults == before.evictedResults + Excess(rebuilt)
    && (KeySpacesDisjoint(full) ==>
          && after.removedCanonicalClaims == before.removedCanonicalClaims + |full.Keys * claims0.Keys|
          && after.recoveredClaims == before.recoveredClaims + |LegacyKeys(full) - claims0.Keys|)
  }

  const NO_CHANGES := Stats(0, 0, 0, 0, false, 0)

  class LegacyCommands {
    const k: Codec
    const queues: Queues
    var claims: ClaimMap
    var results: Results
    var order: seq<string>
    var stats: Stats

    constructor (k: Codec, queues: Queues, claims: ClaimMap, results: Results, order: seq<string>)
      ensures this.k == k && this.queues == queues
      ensures this.claims == claims && this.results == results && this.order == order && stats == NO_CHANGES
    {
      this.k := k;
      this.queues := queues;
      this.claims := claims;
      this.results := results;
      this.order := order;
      this.stats := NO_CHANGES;
    }

    method CanonicalizeResults(ghost full: Results) returns (r: Result<(), LegacyViolation>)
      modifies this`results, this`stats
      ensures r.Err? ==> r.error != ReplayOrderInconsistent
      ensures r.Ok? ==> IsCanonical(k, old(results), results)
      ensures r.Ok? ==>
                stats == old(stats).(canonicalizedKeys := old(stats).canonicalizedKeys + |Misplaced(k, old(results))|)
      ensures r.Ok? ==> |results| == |CanonicalKeys(k, old(results))|
      ensures IsFull(k, old(results), queues, full) && NothingMisfiled(k, old(results)) ==> r.Ok?
      ensures CanonicallyKeyed(k, old(results)) ==> r.Ok? && results == old(results) && stats == old(stats)
    {
      if IsFull(k, results, queues, full) {
        FullIsConsistent(k, queues, results, full);
      }
      var run, moved := Canonicalize(k, results);
      if run.Err? {
        return Err(run.error);
      }
      if CanonicallyKeyed(k, results) {
        KeyedStays(k, results, run.value);
      }
      CanonicalSize(k, results, run.value);
      results := run.value;
      stats := stats.(canonicalizedKeys := stats.canonicalizedKeys + moved);
      return Ok(());
    }

    /** Invariant while results are recovered: the counter accounts for every result added. */
    ghost function ResultBalance(): int
      reads this`results, this`stats
    {
      stats.recoveredResults - |results|
    }

    /** Invariant while claims are recovered and moved: the counters account for every claim. */
    ghost function ClaimBalance(): int
      reads this`claims, this`stats
    {
      stats.recoveredClaims - stats.removedCanonicalClaims - |claims|
    }

    method EnsureLegacyClaim(command: Command) returns (r: Result<(), LegacyViolation>)
      modifies this`claims, this`stats
      ensures var legacy := LegacyScope(command);
              if legacy in old(claims)
              then claims == old(claims) && stats == old(stats) && (r.Ok? <==> old(claims)[legacy] == command.commandId)
              else && r.Ok? && claims == old(claims)[legacy := command.commandId]
                   && stats == old(stats).(recoveredClaims := old(stats).recoveredClaims + 1)
      ensures r.Err? ==> r.error == ConflictingLegacyClaim
      ensures ClaimBalance() == old(ClaimBalance()) && ResultBalance() == old(ResultBalance())
    {
      var legacy := LegacyScope(command);
      if legacy in claims {
        if claims[legacy] != command.commandId {
          return Err(ConflictingLegacyClaim);
        }
        return Ok(());
      }
      claims := claims[legacy := command.commandId];
      stats := stats.(recoveredClaims := stats.recoveredClaims + 1);
      return Ok(());
    }

    /** One queued command: its result and its claim are found or recovered. */
    method RecoverCommand(d: string, command: Command) returns (r: Result<(), LegacyViolation>)
      modifies this`claims, this`results, this`stats
      ensures r.Ok? <==>
                && command.deviceId == d
                && (ScopeOf(k, command) in old(results) ==> old(results)[ScopeOf(k, command)] == command)
                && (LegacyScope(command) in old(claims) ==> old(claims)[LegacyScope(command)] == command.commandId)
      ensures r.Ok? ==>
                && results == old(results)[ScopeOf(k, command) := command]
                && claims == old(claims)[LegacyScope(command) := command.commandId]
      ensures r.Ok? && ScopeOf(k, command) in old(results) && LegacyScope(command) in old(claims) ==>
                stats == old(stats)
      ensures r.Err? ==> r.error != ReplayOrderInconsistent
      ensures ClaimBalance() == old(ClaimBalance()) && ResultBalance() == old(ResultBalance())
      ensures OnlyRecoveries(old(stats), stats)
    {
      if command.deviceId != d {
        return Err(LegacyViolation.PendingDeviceMismatch);
      }
      var canonical := ScopeOf(k, command);
      if canonical in results {
        if results[canonical] != command {
          return Err(ConflictingCommandResult);
        }
      } else {
        results := results[canonical := command];
        stats := stats.(recoveredResults := stats.recoveredResults + 1);
      }
      r := EnsureLegacyClaim(command);
    }

    /** The command at position `n` of queue `d`. */
    method RecoverAt(
        d: string, n: nat, ghost base: Results, ghost todo: set<string>, ghost full: Results, ghost target: ClaimMap)
      returns (r: Result<(), LegacyViolation>)
      requires d in todo && InQueue(queues, d, n) && Recovered(k, queues, base, results, todo, d, n)
      modifies this`claims, this`results, this`stats
      ensures r.Err? ==> r.error != ReplayOrderInconsistent
      ensures r.Ok? ==> Recovered(k, queues, base, results, todo, d, n + 1) && Extends(queues, old(claims), claims)
      ensures Reachable(k, queues, full, target) && old(Within(full, target, results, claims)) ==>
                r.Ok? && Within(full, target, results, claims)
      ensures ClaimBalance() == old(ClaimBalance()) && ResultBalance() == old(ResultBalance())
      ensures OnlyRecoveries(old(stats), stats)
      ensures old(QueuesSettled(k, queues, results, claims)) ==>
                r.Ok? && results == old(results) && claims == old(claims) && stats == old(stats)
    {
      if Reachable(k, queues, full, target) && Within(full, target, results, claims) {
        ReachableCommand(k, queues, full, target, results, claims, d, n);
      }
      if QueuesSettled(k, queues, results, claims) {
        SettledCommand(k, queues, results, claims, d, n);
      }
      r := RecoverCommand(d, queues[d][n]);
      if r.Ok? {
        ClaimAdded(queues, old(claims), d, n);
        RecoveredGrows(k, queues, base, old(results), results, todo, d, n);
      }
    }

    method RecoverQueue(
        d: string, ghost base: Results, ghost todo: set<string>, ghost full: Results, ghost target: ClaimMap)
      returns (r: Result<(), LegacyViolation>)
      requires d in todo && d in queues && Recovered(k, queues, base, results, todo, "", 0)
      modifies this`claims, this`results, this`stats
      ensures r.Err? ==> r.error != ReplayOrderInconsistent
      ensures r.Ok? ==> Recovered(k, queues, base, results, todo - {d}, "", 0) && Extends(queues, old(claims), claims)
      ensures Reachable(k, queues, full, target) && old(Within(full, target, results, claims)) ==>
                r.Ok? && Within(full, target, results, claims)
      ensures ClaimBalance() == old(ClaimBalance()) && ResultBalance() == old(ResultBalance())
      ensures OnlyRecoveries(old(stats), stats)
      ensures old(QueuesSettled(k, queues, results, claims)) ==>
                r.Ok? && results == old(results) && claims == old(claims) && stats == old(stats)
    {
      ghost var settled := QueuesSettled(k, queues, results, claims);
      ghost var good := Reachable(k, queues, full, target) && Within(full, target, results, claims);
      RecoveredStarts(k, queues, base, results, todo, d);
      for n := 0 to |queues[d]|
        invariant Recovered(k, queues, base, results, todo, d, n)
        invariant Extends(queues, old(claims), claims)
        invariant good ==> Within(full, target, results, claims)
        invariant ClaimBalance() == old(ClaimBalance()) && ResultBalance() == old(ResultBalance())
        invariant OnlyRecoveries(old(stats), stats)
        invariant settled ==> results == old(results) && claims == old(claims) && stats == old(stats)
      {
        ghost var before := claims;
        r := RecoverAt(d, n, base, todo, full, target);
        if r.Err? {
          return;
        }
        ExtendsOn(queues, old(claims), before, claims);
      }
      RecoveredEnds(k, queues, base, results, todo, d);
      return Ok(());
    }

    /** The loop over the queued commands, device by device. */
    method RecoverQueued(ghost full: Results, ghost target: ClaimMap) returns (r: Result<(), LegacyViolation>)
      modifies this`claims, this`results, this`stats
      ensures r.Err? ==> r.error != ReplayOrderInconsistent
      ensures r.Ok? ==> Recovered(k, queues, old(results), results, {}, "", 0) && Extends(queues, old(claims), claims)
      ensures Reachable(k, queues, full, target) && old(Within(full, target, results, claims)) ==>
                r.Ok? && Within(full, target, results, claims)
      ensures ClaimBalance() == old(ClaimBalance()) && ResultBalance() == old(ResultBalance())
      ensures OnlyRecoveries(old(stats), stats)
      ensures old(QueuesSettled(k, queues, results, claims)) ==>
                r.Ok? && results == old(results) && claims == old(claims) && stats == old(stats)
    {
      ghost var settled := QueuesSettled(k, queues, results, claims);
      ghost var good := Reachable(k, queues, full, target) && Within(full, target, results, claims);
      var todo := queues.Keys;
      while todo != {}
        invariant todo <= queues.Keys
        invariant Recovered(k, queues, old(results), results, todo, "", 0)
        invariant Extends(queues, old(claims), claims)
        invariant good ==> Within(full, target, results, claims)
        invariant ClaimBalance() == old(ClaimBalance()) && ResultBalance() == old(ResultBalance())
        invariant OnlyRecoveries(old(stats), stats)
        invariant settled ==> results == old(results) && claims == old(claims) && stats == old(stats)
        decreases todo
      {
        var d :| d in todo;
        ghost var before := claims;
        r := RecoverQueue(d, old(results), todo, full, target);
        if r.Err? {
          return;
        }
        ExtendsOn(queues, old(claims), before, claims);
        todo := todo - {d};
      }
      return Ok(());
    }

    /** A claim under a canonical key goes, unless the legacy key is spelled the same. */
    method DropCanonicalClaim(canonical: string, command: Command) returns (r: Result<(), LegacyViolation>)
      modifies this`claims, this`stats
      ensures r.Err? ==> r.error == ConflictingLegacyClaim
      ensures ClaimBalance() == old(ClaimBalance())
      ensures r.Ok? <==> (Drops(old(claims), canonical, command) == 1 ==> old(claims)[canonical] == command.commandId)
      ensures r.Ok? ==> claims == if canonical == LegacyScope(command) then old(claims) else old(claims) - {canonical}
      ensures r.Ok? ==> stats == old(stats).(removedCanonicalClaims :=
                old(stats).removedCanonicalClaims + Drops(old(claims), canonical, command))
      ensures r.Err? ==> stats == old(stats)
    {
      if canonical != LegacyScope(command) && canonical in claims {
        if claims[canonical] != command.commandId {
          return Err(ConflictingLegacyClaim);
        }
        claims := claims - {canonical};
        stats := stats.(removedCanonicalClaims := stats.removedCanonicalClaims + 1);
      }
      assert canonical !in old(claims) ==> old(claims) - {canonical} == old(claims);
      return Ok(());
    }

    /** One result: its legacy claim is ensured and a claim under its canonical key is dropped. */
    method MoveClaim(canonical: string) returns (r: Result<(), LegacyViolation>)
      requires canonical in results
      modifies this`claims, this`stats
      ensures r.Err? ==> r.error == ConflictingLegacyClaim
      ensures ClaimBalance() == old(ClaimBalance()) && OnlyClaimMoves(old(stats), stats)
      ensures r.Ok? <==> ClaimMovable(old(claims), canonical, results[canonical])
      ensures r.Ok? ==> claims == Moved(old(claims), canonical, results[canonical])
      ensures r.Ok? ==>
                stats.removedCanonicalClaims
                  == old(stats).removedCanonicalClaims + Drops(old(claims), canonical, results[canonical])
    {
      var command := results[canonical];
      r := EnsureLegacyClaim(command);
      if r.Err? {
        return;
      }
      r := DropCanonicalClaim(canonical, command);
    }

    /** The next result of an order that has come as far as `keys`. */
    method MoveNext(
      canonical: string, ghost before: ClaimMap, ghost keys: seq<string>, ghost todo: set<string>, ghost dropped: nat)
      returns (r: Result<(), LegacyViolation>, ghost dropped': nat)
      requires Taken(results, keys, todo) && canonical in todo
      requires MoveRun(results, before, keys) == Some((claims, dropped))
      modifies this`claims, this`stats
      ensures Taken(results, keys + [canonical], todo - {canonical})
      ensures r.Err? ==> r.error == ConflictingLegacyClaim
      ensures MoveRun(results, before, keys + [canonical]) == if r.Ok? then Some((claims, dropped')) else None
      ensures r.Ok? ==>
                stats.removedCanonicalClaims - old(stats).removedCanonicalClaims == dropped' - dropped
      ensures ClaimBalance() == old(ClaimBalance()) && OnlyClaimMoves(old(stats), stats)
    {
      MoveRunSnoc(results, before, keys, todo, canonical, claims, dropped);
      dropped' := dropped + Drops(claims, canonical, results[canonical]);
      r := MoveClaim(canonical);
    }

    /** The loop over the results, in whatever order the map yields them; `keys` is that order. */
    method MoveInOrder()
      returns (r: Result<(), LegacyViolation>, ghost keys: seq<string>, ghost rest: set<string>, ghost dropped: nat)
      modifies this`claims, this`stats
      ensures Taken(results, keys, rest) && (r.Ok? ==> rest == {})
      ensures r.Err? ==> r.error == ConflictingLegacyClaim
      ensures MoveRun(results, old(claims), keys) == if r.Ok? then Some((claims, dropped)) else None
      ensures r.Ok? ==> stats.removedCanonicalClaims == old(stats).removedCanonicalClaims + dropped
      ensures ClaimBalance() == old(ClaimBalance()) && OnlyClaimMoves(old(stats), stats)
    {
      keys, dropped := [], 0;
      var todo := results.Keys;
      while todo != {}
        invariant Taken(results, keys, todo)
        invariant MoveRun(results, old(claims), keys) == Some((claims, dropped))
        invariant stats.removedCanonicalClaims == old(stats).removedCanonicalClaims + dropped
        invariant ClaimBalance() == old(ClaimBalance()) && OnlyClaimMoves(old(stats), stats)
        decreases todo
      {
        var canonical :| canonical in todo;
        r, dropped := MoveNext(canonical, old(claims), keys, todo, dropped);
        keys := keys + [canonical];
        todo := todo - {canonical};
        if r.Err? {
          return r, keys, todo, dropped;
        }
      }
      return Ok(()), keys, todo, dropped;
    }

    /**
      Claims move from canonical to legacy keys, in one of the possible orders. With disjoint key
      spaces the order does not matter: all claims end up under legacy keys, and the counter says
      how many canonical ones there were.
     */
    method MoveClaims(ghost target: ClaimMap) returns (r: Result<(), LegacyViolation>)
      modifies this`claims, this`stats
      ensures r.Err? ==> r.error == ConflictingLegacyClaim
      ensures if r.Ok? then SomeMove(results, old(claims), claims) else SomeMoveFails(results, old(claims))
      ensures ClaimBalance() == old(ClaimBalance()) && OnlyClaimMoves(old(stats), stats)
      ensures r.Ok? && KeySpacesDisjoint(results) ==>
                && MovedSoFar(results, old(claims), claims, {})
                && stats.removedCanonicalClaims
                     == old(stats).removedCanonicalClaims + |results.Keys * old(claims).Keys|
      ensures Reachable(k, queues, results, target) && Sub(old(claims), target) ==> r.Ok?
      ensures IsClaimTable(results, old(claims)) && KeySpacesDisjoint(results) ==>
                r.Ok? && claims == old(claims) && stats == old(stats)
    {
      ghost var keys, rest, dropped;
      r, keys, rest, dropped := MoveInOrder();
      if r.Ok? {
        MovedInOrder(results, old(claims), keys, claims, dropped);
      } else {
        StoppedInOrder(k, queues, results, old(claims), target, keys, rest);
      }
    }

    method RebuildOrder()
      modifies this`order, this`stats
      ensures IsRebuilt(old(order), results.Keys, order)
      ensures stats == old(stats).(rebuiltOrder := order != old(order))
    {
      var original := order;
      order := Rebuild(original, results.Keys);
      stats := stats.(rebuiltOrder := order != original);
    }

    ghost predicate TableKept()
      reads this`results, this`claims
    {
      IsClaimTable(results, claims) && LegacyInjective(results) && KeySpacesDisjoint(results)
    }

    /**
      Eviction down to the cap: the first non-pending keys go, everything else keeps its place.
      It fails exactly when more results are pending than the cap allows.
     */
    method TrimResults() returns (r: Result<(), LegacyViolation>)
      requires OrderMatches(order, results)
      modifies this`order, this`results, this`claims, this`stats
      ensures r.Ok? <==> Pinned(old(order), Evictable(queues, old(results))) <= MAX_IDEMPOTENCY_RESULTS
      ensures r.Err? ==> r.error == LegacyViolation.ReplayCapacityExceeded
      ensures r.Ok? ==> order == EvictFirst(old(order), Evictable(queues, old(results)), Excess(old(order)))
      ensures r.Ok? ==> results == Keep(old(results), Elements(order)) && OrderMatches(order, results)
      ensures r.Ok? ==> stats == old(stats).(evictedResults := old(stats).evictedResults + Excess(old(order)))
      ensures Excess(old(order)) == 0 ==> claims == old(claims) && order == old(order) && results == old(results)
      ensures OnlyOwnGone(old(results), old(claims), claims)
      ensures old(TableKept()) ==> IsClaimTable(results, claims)
    {
      ghost var kept := TableKept();
      TrimStarts(queues, order, results);
      while |order| > MAX_IDEMPOTENCY_RESULTS
        invariant Trimmed(queues, old(order), old(results), order, results)
        invariant stats == old(stats).(evictedResults := old(stats).evictedResults + Excess(old(order)) - Excess(order))
        invariant Excess(old(order)) == 0 ==> claims == old(claims) && order == old(order) && results == old(results)
        invariant OnlyOwnGone(old(results), old(claims), claims)
        invariant kept ==> TableKept()
        decreases |order|
      {
        var position := FirstEvictable(order, Evictable(queues, results));
        TrimStep(queues, old(order), old(results), order, results);
        if position == |order| {
          return Err(LegacyViolation.ReplayCapacityExceeded);
        }
        EvictedClaims(old(results), old(claims), claims, order[position]);
        if kept {
          EvictedTable(results, claims, order[position]);
        }
        EvictResult(position);
      }
      TrimEnds(queues, old(order), old(results), order, results);
      return Ok(());
    }

    method EvictResult(position: nat)
      requires position < |order| && order[position] in results
      modifies this`order, this`results, this`claims, this`stats
      ensures order == RemoveAt(old(order), position) && results == old(results) - {old(order)[position]}
      ensures claims == Forgotten(old(claims), old(order)[position], old(results)[old(order)[position]])
      ensures stats == old(stats).(evictedResults := old(stats).evictedResults + 1)
    {
      var key := order[position];
      var command := results[key];
      order := RemoveAt(order, position);
      results := results - {key};
      ForgetClaim(LegacyScope(command), command.commandId);
      ForgetClaim(key, command.commandId);
      stats := stats.(evictedResults := stats.evictedResults + 1);
    }

    method ForgetClaim(key: string, id: CommandId)
      modifies this`claims
      ensures claims == Forget(old(claims), key, id)
    {
      if key in claims && claims[key] == id {
        claims := claims - {key};
      }
    }

    /** The claims must be as many as the legacy keys and each must match: together, they are exactly those. */
    method ValidateLegacyClaims() returns (r: Result<(), LegacyViolation>)
      ensures r.Ok? <==> IsClaimTable(results, claims)
      ensures r.Err? ==> r.error != ReplayOrderInconsistent
    {
      var expected: ClaimMap := map[];
      var todo := results.Keys;
      while todo != {}
        invariant todo <= results.Keys
        invariant forall x | x in results && x !in todo ::
                    LegacyScope(results[x]) in expected && expected[LegacyScope(results[x])] == results[x].commandId
        invariant forall key | key in expected ::
                    exists x :: x in results && x !in todo && LegacyScope(results[x]) == key
        decreases todo
      {
        var x :| x in todo;
        var key := LegacyScope(results[x]);
        if key in expected && expected[key] != results[x].commandId {
          return Err(ConflictingLegacyClaim);
        }
        expected := expected[key := results[x].commandId];
        todo := todo - {x};
      }
      assert IsClaimTable(results, expected);
      if |claims| != |expected| {
        assert claims != expected;
        SameTable(results, claims, expected);
        return Err(OrphanLegacyClaim);
      }
      if exists key | key in claims :: key !in expected || expected[key] != claims[key] {
        assert claims != expected;
        SameTable(results, claims, expected);
        return Err(OrphanLegacyClaim);
      }
      EqualSizeSubmap(claims, expected);
      return Ok(());
    }

    /** The pass over the queues, once the results are canonical. */
    method RecoverAll(ghost entries: Results, ghost full: Results, ghost target: ClaimMap)
        returns (r: Result<(), LegacyViolation>)
      requires IsCanonical(k, entries, results)
      modifies this`claims, this`results, this`stats
      ensures r.Err? ==> r.error != ReplayOrderInconsistent
      ensures r.Ok? ==> IsFull(k, entries, queues, results) && Extends(queues, old(claims), claims)
      ensures ClaimBalance() == old(ClaimBalance()) && ResultBalance() == old(ResultBalance())
      ensures OnlyRecoveries(old(stats), stats)
      ensures Completable(k, queues, entries, old(claims), full, target) ==>
                r.Ok? && results == full && Sub(claims, target)
      ensures old(QueuesSettled(k, queues, results, claims)) ==>
                r.Ok? && results == old(results) && claims == old(claims) && stats == old(stats)
    {
      ghost var good := Completable(k, queues, entries, claims, full, target);
      if good {
        CanonicalWithin(k, queues, entries, results, full);
      }
      r := RecoverQueued(full, target);
      if r.Ok? {
        Completed(k, queues, entries, old(results), results, full);
      }
    }

    /** Both passes over results and queues. */
    method CompleteResults(ghost full: Results, ghost target: ClaimMap) returns (r: Result<(), LegacyViolation>)
      modifies this`claims, this`results, this`stats
      ensures r.Err? ==> r.error != ReplayOrderInconsistent
      ensures r.Ok? ==> IsFull(k, old(results), queues, results) && Extends(queues, old(claims), claims)
      ensures r.Ok? ==> CountedUpTo(k, old(results), old(claims), old(stats), results, claims, stats)
                        && stats.removedCanonicalClaims == old(stats).removedCanonicalClaims
      ensures Completable(k, queues, old(results), old(claims), full, target) ==>
                r.Ok? && results == full && Sub(claims, target)
      ensures CanonicallyKeyed(k, old(results)) && old(QueuesSettled(k, queues, results, claims)) ==>
                r.Ok? && results == old(results) && claims == old(claims) && stats == old(stats)
    {
      r := CanonicalizeResults(full);
      if r.Err? {
        return;
      }
      r := RecoverAll(old(results), full, target);
    }

    /** The three passes that complete the results and move the claims to legacy keys. */
    method CompleteAndMove(ghost want: Results) returns (r: Result<(), LegacyViolation>)
      modifies this`claims, this`results, this`stats
      ensures r.Err? ==> r.error != ReplayOrderInconsistent
      ensures r.Ok? ==> IsFull(k, old(results), queues, results)
      ensures r.Ok? ==> CountedUpTo(k, old(results), old(claims), old(stats), results, claims, stats)
      ensures r.Ok? && KeySpacesDisjoint(results) ==>
                && ClaimsMoved(results, old(claims), claims)
                && stats.removedCanonicalClaims
                     == old(stats).removedCanonicalClaims + |results.Keys * old(claims).Keys|
      ensures Acceptable(k, queues, old(results), old(claims), want) ==>
                r.Ok? && results == want && IsClaimTable(results, claims)
      ensures CanonicallyKeyed(k, old(results)) && old(QueuesSettled(k, queues, results, claims)
              && IsClaimTable(results, claims) && KeySpacesDisjoint(results)) ==>
                r.Ok? && results == old(results) && claims == old(claims) && stats == old(stats)
    {
      ghost var acceptable := Acceptable(k, queues, results, claims, want);
      ghost var target: ClaimMap := map[];
      if acceptable {
        target := AcceptableTarget(k, queues, results, claims, want);
      }
      r := CompleteResults(want, target);
      if r.Err? {
        return;
      }
      ghost var recovered, halfway := claims, stats;
      r := MoveClaims(target);
      if r.Err? {
        return;
      }
      CountedOn(k, old(results), old(claims), old(stats), results, recovered, halfway, claims, stats);
      if KeySpacesDisjoint(results) {
        MovedCleanly(k, queues, old(results), results, old(claims), recovered, claims);
      }
      if acceptable {
        MovedIsTable(want, recovered, target, claims);
      }
    }

    /** Rebuild the order and evict down to the cap. */
    method Reorder() returns (r: Result<(), LegacyViolation>, ghost rebuilt: seq<string>)
      modifies this
      ensures r.Err? ==> r.error != ReplayOrderInconsistent
      ensures r.Ok? <==> |PendingKeys(queues, old(results))| <= MAX_IDEMPOTENCY_RESULTS
      ensures r.Ok? ==>
                && IsReordered(queues, old(results), old(order), rebuilt, results, order)
                && OnlyOwnGone(old(results), old(claims), claims)
                && stats == old(stats).(rebuiltOrder := rebuilt != old(order),
                                        evictedResults := old(stats).evictedResults + Excess(rebuilt))
      ensures r.Ok? && old(TableKept()) ==> IsClaimTable(results, claims)
      ensures old(OrderMatches(order, results)) && Excess(old(order)) == 0 ==>
                && r.Ok? && results == old(results) && claims == old(claims)
                && order == old(order) && rebuilt == old(order)
    {
      ghost var settled := OrderMatches(order, results) && Excess(order) == 0;
      RebuildOrder();
      rebuilt := order;
      PinnedCounts(rebuilt, Evictable(queues, results));
      if settled {
        OrderStays(queues, old(order), results, rebuilt);
      }
      r := TrimResults();
    }

    /** Rebuild the order, evict down to the cap and check the claims. */
    method OrderAndTrim() returns (r: Result<(), LegacyViolation>, ghost rebuilt: seq<string>)
      modifies this
      ensures r.Err? ==> r.error != ReplayOrderInconsistent
      ensures r.Ok? ==>
                && IsTrimmed(queues, old(results), old(order), rebuilt, results, claims, order)
                && OnlyOwnGone(old(results), old(claims), claims)
                && stats == old(stats).(rebuiltOrder := rebuilt != old(order),
                                        evictedResults := old(stats).evictedResults + Excess(rebuilt))
      ensures old(TableKept()) && |PendingKeys(queues, old(results))| <= MAX_IDEMPOTENCY_RESULTS ==> r.Ok?
      ensures old(OrderMatches(order, results) && IsClaimTable(results, claims) && Excess(order) == 0) ==>
                && r.Ok? && results == old(results) && claims == old(claims) && order == old(order)
                && stats == old(stats).(rebuiltOrder := false)
    {
      r, rebuilt := Reorder();
      if r.Err? {
        return;
      }
      r := ValidateLegacyClaims();
    }

    /** All passes, given the full results they are heading for if the state is acceptable. */
    method NormalizeTowards(ghost want: Results) returns (
      r: Result<(), LegacyViolation>, ghost full: Results, ghost moved: ClaimMap, ghost rebuilt: seq<string>)
      modifies this
      ensures r.Err? ==> r.error != ReplayOrderInconsistent
      ensures r.Ok? ==>
                && IsFull(k, old(results), queues, full)
                && (KeySpacesDisjoint(full) ==> ClaimsMoved(full, old(claims), moved))
                && IsTrimmed(queues, full, old(order), rebuilt, results, claims, order)
                && OnlyOwnGone(full, moved, claims)
                && Counted(k, old(results), old(claims), old(order), old(stats), full, moved, rebuilt, stats)
      ensures Acceptable(k, queues, old(results), old(claims), want) ==> r.Ok?
      ensures && CanonicallyKeyed(k, old(results)) && old(QueuesSettled(k, queues, results, claims))
              && old(IsClaimTable(results, claims)) && KeySpacesDisjoint(old(results))
              && old(OrderMatches(order, results)) && Excess(old(order)) == 0 ==>
                && r.Ok? && results == old(results) && claims == old(claims) && order == old(order)
                && stats == old(stats).(rebuiltOrder := false)
    {
      full, moved, rebuilt := map[], map[], [];
      r := CompleteAndMove(want);
      if r.Err? {
        return;
      }
      full, moved := results, claims;
      r, rebuilt := OrderAndTrim();
    }

    /**
      On success the collections are the normal form of what they were. An acceptable state is
      never refused, whatever order its maps are walked in, and only states whose claims fit are
      let through. A settled state with disjoint key spaces is left exactly as it is, with
      nothing to report.
     */
    method NormalizeCommands() returns (
      r: Result<(), LegacyViolation>, ghost full: Results, ghost rebuilt: seq<string>)
      modifies this
      ensures r.Err? ==> r.error != ReplayOrderInconsistent
      ensures r.Ok? ==> NormalForm(k, queues, old(results), old(order), full, rebuilt, results, claims, order)
      ensures r.Ok? ==> Settled(k, queues, results, claims, order)
      ensures (exists want :: Acceptable(k, queues, old(results), old(claims), want)) ==> r.Ok?
      ensures r.Ok? && KeySpacesDisjoint(full) ==>
                ClaimsFit(full, old(claims)) && |PendingKeys(queues, full)| <= MAX_IDEMPOTENCY_RESULTS
      ensures r.Ok? ==> Reported(k, old(results), old(claims), old(order), old(stats), full, rebuilt, stats)
      ensures old(Settled(k, queues, results, claims, order) && KeySpacesDisjoint(results)) ==>
                && r.Ok? && results == old(results) && claims == old(claims) && order == old(order)
                && stats == old(stats).(rebuiltOrder := false)
    {
      if Settled(k, queues, results, claims, order) {
        SettledFacts(k, queues, results, claims, order);
      }
      ghost var want: Results := map[];
      if exists want :: Acceptable(k, queues, results, claims, want) {
        want :| Acceptable(k, queues, results, claims, want);
      }
      ghost var moved;
      r, full, moved, rebuilt := NormalizeTowards(want);
      if r.Ok? {
        Normalized(k, queues, old(results), old(claims), old(order), full, moved, rebuilt, results, claims, order);
        Reports(k, queues, old(results), old(claims), old(order), old(stats),
          full, moved, rebuilt, results, claims, order, stats);
      }
    }
  }

  lemma OneCommandIsSettled(k: Codec, c: Command, results: Results, claims: ClaimMap, order: seq<string>)
    requires ScopeOf(k, c) != c.deviceId + ":" + c.idempotencyKey
    requires results == map[ScopeOf(k, c) := c] && order == [ScopeOf(k, c)]
    requires claims == map[c.deviceId + ":" + c.idempotencyKey := c.commandId]
    ensures Settled(k, map[], results, claims, order) && KeySpacesDisjoint(results)
  {
    OneClaim(k, c);
    assert results[ScopeOf(k, c)] == c && Elements(order) == results.Keys;
  }

  /**
    The ordinary legacy file, one command under its canonical key, claimed as device, colon,
    idempotency key, is accepted and left exactly as it is.
   */
  method NormalizeOrdinaryFile(k: Codec, c: Command) returns (commands: LegacyCommands, r: Result<(), LegacyViolation>)
    requires ScopeOf(k, c) != c.deviceId + ":" + c.idempotencyKey
    ensures fresh(commands) && r.Ok?
    ensures commands.results == map[ScopeOf(k, c) := c] && commands.order == [ScopeOf(k, c)]
    ensures commands.claims == map[c.deviceId + ":" + c.idempotencyKey := c.commandId]
    ensures commands.stats == NO_CHANGES
  {
    var results, claims := map[ScopeOf(k, c) := c], map[c.deviceId + ":" + c.idempotencyKey := c.commandId];
    r, commands := NormalizeSettled(k, map[], claims, results, [ScopeOf(k, c)], c);
  }

  method NormalizeSettled(
    k: Codec, queues: Queues, claims: ClaimMap, results: Results, order: seq<string>, ghost c: Command)
    returns (r: Result<(), LegacyViolation>, commands: LegacyCommands)
    requires ScopeOf(k, c) != c.deviceId + ":" + c.idempotencyKey && queues == map[]
    requires results == map[ScopeOf(k, c) := c] && order == [ScopeOf(k, c)]
    requires claims == map[c.deviceId + ":" + c.idempotencyKey := c.commandId]
    ensures fresh(commands) && r.Ok?
    ensures commands.results == results && commands.order == order && commands.claims == claims
    ensures commands.stats == NO_CHANGES
  {
    OneCommandIsSettled(k, c, results, claims, order);
    commands := new LegacyCommands(k, queues, claims, results, order);
    ghost var full, rebuilt;
    r, full, rebuilt := commands.NormalizeCommands();
  }

  // ---------------------------------------------------------------- consuming the normal form

  function ReplayOf(k: Codec, order: seq<string>, results: Results): seq<ReplayRecord>
    requires forall x | x in order :: x in results
  {
    seq(|order|, i requires 0 <= i < |order| => FromCommand(k, results[order[i]]))
  }

  /** The consuming loop succeeds exactly when the order lists every result key once. */
  method ConsumeResults(k: Codec, order: seq<string>, results: Results)
    returns (r: Result<seq<ReplayRecord>, LegacyViolation>)
    ensures r.Ok? <==> OrderMatches(order, results)
    ensures r.Ok? ==> (forall x | x in order :: x in results) && r.value == ReplayOf(k, order, results)
    ensures r.Ok? ==> |r.value| == |order|
                      && forall i | 0 <= i < |order| :: r.value[i] == FromCommand(k, results[order[i]])
    ensures r.Err? ==> r.error == ReplayOrderInconsistent
  {
    var remaining := results;
    var replay: seq<ReplayRecord> := [];
    for i := 0 to |order|
      invariant NoRepeats(order[..i]) && Elements(order[..i]) <= results.Keys
      invariant remaining == results - Elements(order[..i])
      invariant |replay| == i
      invariant forall j | 0 <= j < i :: order[j] in results && replay[j] == FromCommand(k, results[order[j]])
    {
      assert order[..i + 1] == order[..i] + [order[i]];
      if order[i] !in remaining {
        UnusableKey(order, results, i);
        return Err(ReplayOrderInconsistent);
      }
      assert order[i] !in Elements(order[..i]);
      JoinedFacts(order[..i], [order[i]]);
      replay := replay + [FromCommand(k, remaining[order[i]])];
      remaining := remaining - {order[i]};
    }
    assert order[..|order|] == order;
    if remaining != map[] {
      var x :| x in remaining;
      assert x in results && x !in Elements(order);
      return Err(ReplayOrderInconsistent);
    }
    forall x | x in results ensures x in Elements(order) {
      assert x !in remaining;
    }
    return Ok(replay);
  }

  lemma UnusableKey(order: seq<string>, results: Results, i: nat)
    requires i < |order| && (order[i] !in results || order[i] in Elements(order[..i]))
    ensures !OrderMatches(order, results)
  {
    if order[i] !in results {
      assert order[i] in Elements(order);
    } else {
      var j :| 0 <= j < i && order[..i][j] == order[i];
      assert order[j] == order[i];
    }
  }

  /**
    What the import passes on: recomputed scopes and fingerprints, pairwise distinct scopes, at
    most 1000 records, and an equal replay record for every queued command.
   */
  lemma ImportedParts(
      k: Codec, queues: Queues, results: Results, claims: ClaimMap, order: seq<string>, devices: map<string, Device>)
    requires Settled(k, queues, results, claims, order)
    ensures forall x | x in order :: x in results
    ensures var s := ControlPlane(devices, queues, ReplayOf(k, order, results));
            && |s.replay| <= MAX_IDEMPOTENCY_RESULTS
            && (forall i | 0 <= i < |s.replay| :: s.replay[i] == FromCommand(k, s.replay[i].command))
            && (forall i, j | 0 <= i < j < |s.replay| :: s.replay[i].scopeKey != s.replay[j].scopeKey)
            && (forall d, i | Queued(s, d, i) :: s.queues[d][i].deviceId == d && Replayed(s, s.queues[d][i]))
  {
    forall x | x in order ensures x in results {
      assert x in Elements(order);
    }
    var s := ControlPlane(devices, queues, ReplayOf(k, order, results));
    forall i | 0 <= i < |order| ensures s.replay[i].scopeKey == order[i] {
      assert order[i] in order;
    }
    forall d, i | Queued(s, d, i) ensures s.queues[d][i].deviceId == d && Replayed(s, s.queues[d][i]) {
      assert InQueue(queues, d, i);
      var x := ScopeOf(k, queues[d][i]);
      assert x in Elements(order);
      var j :| 0 <= j < |order| && order[j] == x;
      assert s.replay[j].command == queues[d][i];
    }
  }

  /** The checks a normalised import can still fail. */
  ghost predicate ImportChecks(s: ControlPlane) {
    && ValidDevices(s)
    && (forall i | 0 <= i < |s.replay| :: s.replay[i].command.deviceId != "")
    && (forall i, j | 0 <= i < j < |s.replay| :: s.replay[i].command.commandId != s.replay[j].command.commandId)
    && |PendingPositions(s)| <= MAX_PENDING_COMMANDS
    && (forall d | d in s.queues :: |s.queues[d]| <= MAX_COMMAND_QUEUE_PER_DEVICE)
    && DistinctPending(s)
  }

  /** After normalisation, validation comes down to identities and capacities. */
  lemma ImportValidIff(
      k: Codec, queues: Queues, results: Results, claims: ClaimMap, order: seq<string>, devices: map<string, Device>)
    requires Settled(k, queues, results, claims, order)
    ensures forall x | x in order :: x in results
    ensures var s := ControlPlane(devices, queues, ReplayOf(k, order, results));
            Valid(k, s) <==> ImportChecks(s)
  {
    ImportedParts(k, queues, results, claims, order, devices);
    var s := ControlPlane(devices, queues, ReplayOf(k, order, results));
    if ImportChecks(s) {
      forall d, i | Queued(s, d, i) ensures d != "" {
        assert Replayed(s, s.queues[d][i]);
        var j :| 0 <= j < |s.replay| && s.replay[j].command == s.queues[d][i];
      }
    }
  }

  datatype ImportError = Violation(violation: LegacyViolation) | Invalid(snapshot: SnapshotViolation)

  /** The parts handed on by the import, in the order of the replay list. */
  function Parts(
      k: Codec, devices: map<string, Device>, queues: Queues, order: seq<string>, results: Results): ControlPlane
    requires forall x | x in order :: x in results
  {
    ControlPlane(devices, queues, ReplayOf(k, order, results))
  }

  /**
    parse_legacy_json after decoding: normalise, consume, validate and rebuild. After a successful
    normalisation it succeeds exactly when the remaining checks hold, with the rebuilt snapshot of
    the normalised state, whose tables are those of the parts.
   */
  method ParseLegacy(commands: LegacyCommands, devices: map<string, Device>)
      returns (r: Result<ControlPlane, ImportError>)
    modifies commands
    ensures r.Err? && r.error.Violation? ==> r.error.violation != ReplayOrderInconsistent
    ensures (exists want ::
               Acceptable(commands.k, commands.queues, old(commands.results), old(commands.claims), want)) ==>
              r.Ok? || r.error.Invalid?
    ensures r.Ok? || r.error.Invalid? ==>
              && Settled(commands.k, commands.queues, commands.results, commands.claims, commands.order)
              && (forall x | x in commands.order :: x in commands.results)
              && var s := Parts(commands.k, devices, commands.queues, commands.order, commands.results);
                 && (r.Ok? <==> ImportChecks(s))
                 && (r.Ok? ==> r.value == Rebuilt(s) && Valid(commands.k, r.value)
                               && Relational(commands.k, r.value) == Relational(commands.k, s))
                 && (r.Err? ==> Violates(commands.k, s, r.error.snapshot))
  {
    var normalized, full, rebuilt := commands.NormalizeCommands();
    if normalized.Err? {
      return Err(Violation(normalized.error));
    }
    var replay := ConsumeResults(commands.k, commands.order, commands.results);
    assert replay.Ok?;
    ImportValidIff(commands.k, commands.queues, commands.results, commands.claims, commands.order, devices);
    var snapshot := FromParts(commands.k, ControlPlane(devices, commands.queues, replay.value));
    if snapshot.Err? {
      return Err(Invalid(snapshot.error));
    }
    return Ok(snapshot.value);
  }

  lemma RecoveredIsFull(k: Codec, queues: Queues, entries: Results, base: Results, full: Results)
    requires IsCanonical(k, entries, base)
    requires Recovered(k, queues, base, full, {}, "", 0)
    ensures IsFull(k, entries, queues, full)
  {
    forall d, i | InQueue(queues, d, i)
      ensures && queues[d][i].deviceId == d
              && ScopeOf(k, queues[d][i]) in full && full[ScopeOf(k, queues[d][i])] == queues[d][i]
    {
      assert Handled(queues, {}, "", 0, d, i);
    }
  }

  /** The order was rebuilt and trimmed, and the results follow it. */
  ghost predicate IsReordered(
    queues: Queues, full: Results, original: seq<string>, rebuilt: seq<string>, results: Results, order: seq<string>)
  {
    && IsRebuilt(original, full.Keys, rebuilt)
    && order == EvictFirst(rebuilt, Evictable(queues, full), Excess(rebuilt))
    && results == Keep(full, Elements(order))
  }

  /** The same, within the cap and with claims that match the results. */
  ghost predicate IsTrimmed(
    queues: Queues, full: Results, original: seq<string>, rebuilt: seq<string>,
    results: Results, claims: ClaimMap, order: seq<string>)
  {
    && IsReordered(queues, full, original, rebuilt, results, order)
    && |PendingKeys(queues, full)| <= MAX_IDEMPOTENCY_RESULTS
    && IsClaimTable(results, claims)
  }

  lemma OrderStays(queues: Queues, order: seq<string>, results: Results, rebuilt: seq<string>)
    requires OrderMatches(order, results) && Excess(order) == 0 && IsRebuilt(order, results.Keys, rebuilt)
    ensures rebuilt == order && Pinned(order, Evictable(queues, results)) <= MAX_IDEMPOTENCY_RESULTS
  {
    RebuiltFixes(order, results.Keys);
    RebuiltIsUnique(order, results.Keys, order, rebuilt);
    PinnedBound(order, Evictable(queues, results));
  }

  lemma SettledFacts(k: Codec, queues: Queues, results: Results, claims: ClaimMap, order: seq<string>)
    requires Settled(k, queues, results, claims, order)
    ensures CanonicallyKeyed(k, results) && QueuesSettled(k, queues, results, claims) && IsClaimTable(results, claims)
    ensures OrderMatches(order, results) && Excess(order) == 0
  {
  }

  /** What a run that got through all passes has achieved. */
  lemma Normalized(
    k: Codec, queues: Queues, entries: Results, claims0: ClaimMap, original: seq<string>,
    full: Results, moved: ClaimMap, rebuilt: seq<string>, results: Results, claims: ClaimMap, order: seq<string>)
    requires IsFull(k, entries, queues, full)
    requires KeySpacesDisjoint(full) ==> ClaimsMoved(full, claims0, moved)
    requires IsTrimmed(queues, full, original, rebuilt, results, claims, order) && OnlyOwnGone(full, moved, claims)
    ensures NormalForm(k, queues, entries, original, full, rebuilt, results, claims, order)
    ensures Settled(k, queues, results, claims, order)
    ensures KeySpacesDisjoint(full) ==> ClaimsFit(full, claims0)
    ensures |PendingKeys(queues, full)| <= MAX_IDEMPOTENCY_RESULTS
  {
    NormalFormIsSettled(k, queues, entries, original, full, rebuilt, results, claims, order);
    if KeySpacesDisjoint(full) {
      SuccessMeansFit(full, claims0, moved, results, claims);
    }
  }

  lemma QueuedKeyIsLegacy(k: Codec, queues: Queues, entries: Results, full: Results, key: string)
    requires IsFull(k, entries, queues, full) && IsQueuedKey(queues, key)
    ensures IsLegacyKey(full, key)
  {
    var d, i :| InQueue(queues, d, i) && LegacyScope(queues[d][i]) == key;
    assert full[ScopeOf(k, queues[d][i])] == queues[d][i];
  }

  /** Claims added for queued commands are under legacy keys, so the canonical ones are those stored. */
  lemma SameCanonicalClaims(
    k: Codec, queues: Queues, entries: Results, full: Results, claims0: ClaimMap, recovered: ClaimMap)
    requires IsFull(k, entries, queues, full) && KeySpacesDisjoint(full) && Extends(queues, claims0, recovered)
    ensures full.Keys * recovered.Keys == full.Keys * claims0.Keys
  {
    forall key | key in full && key in recovered ensures key in claims0 {
      if IsQueuedKey(queues, key) {
        QueuedKeyIsLegacy(k, queues, entries, full, key);
      }
    }
  }

  lemma MovedCleanly(
    k: Codec, queues: Queues, entries: Results, full: Results, claims0: ClaimMap, recovered: ClaimMap, moved: ClaimMap)
    requires IsFull(k, entries, queues, full) && KeySpacesDisjoint(full) && Extends(queues, claims0, recovered)
    requires MovedSoFar(full, recovered, moved, {})
    ensures ClaimsMoved(full, claims0, moved) && full.Keys * recovered.Keys == full.Keys * claims0.Keys
  {
    SameCanonicalClaims(k, queues, entries, full, claims0, recovered);
  }

  lemma CountedOn(
    k: Codec, entries: Results, claims0: ClaimMap, before: Stats,
    results: Results, recovered: ClaimMap, halfway: Stats, moved: ClaimMap, after: Stats)
    requires CountedUpTo(k, entries, claims0, before, results, recovered, halfway) && OnlyClaimMoves(halfway, after)
    requires after.recoveredClaims - after.removedCanonicalClaims - |moved|
          == halfway.recoveredClaims - halfway.removedCanonicalClaims - |recovered|
    ensures CountedUpTo(k, entries, claims0, before, results, moved, after)
  {
  }

  lemma Reports(
    k: Codec, queues: Queues, entries: Results, claims0: ClaimMap, original: seq<string>, before: Stats,
    full: Results, moved: ClaimMap, rebuilt: seq<string>,
    results: Results, claims: ClaimMap, order: seq<string>, after: Stats)
    requires Counted(k, entries, claims0, original, before, full, moved, rebuilt, after)
    requires KeySpacesDisjoint(full) ==> ClaimsMoved(full, claims0, moved) && ClaimsFit(full, claims0)
    requires IsTrimmed(queues, full, original, rebuilt, results, claims, order) && OnlyOwnGone(full, moved, claims)
    ensures Reported(k, entries, claims0, original, before, full, rebuilt, after)
  {
    if KeySpacesDisjoint(full) {
      MovedUnderLegacyKeys(full, claims0, moved, results, claims);
      ClaimsSplit(full, claims0);
      assert |moved| == |moved.Keys|;
    }
  }

  lemma AcceptableTarget(k: Codec, queues: Queues, entries: Results, claims: ClaimMap, full: Results)
      returns (target: ClaimMap)
    requires Acceptable(k, queues, entries, claims, full)
    ensures IsTarget(full, claims, target) && Completable(k, queues, entries, claims, full, target)
  {
    target := TargetExists(full, claims);
    FullFacts(k, entries, queues, full);
  }

  lemma Completed(k: Codec, queues: Queues, entries: Results, base: Results, results: Results, full: Results)
    requires IsCanonical(k, entries, base) && Recovered(k, queues, base, results, {}, "", 0)
    ensures IsFull(k, entries, queues, results)
    ensures IsFull(k, entries, queues, full) ==> results == full
  {
    RecoveredIsFull(k, queues, entries, base, results);
    if IsFull(k, entries, queues, full) {
      FullIsUnique(k, entries, queues, results, full);
    }
  }

  /** Some evictions have been made and the rest would complete the whole eviction. */
  ghost predicate Trimmed(queues: Queues, order0: seq<string>, results0: Results, order: seq<string>, results: Results)
  {
    && NoRepeats(order)
    && Elements(order) <= results0.Keys
    && results == Keep(results0, Elements(order))
    && PartlyEvicted(Evictable(queues, results0), order0, order)
  }

  ghost predicate PartlyEvicted(evictable: set<string>, order0: seq<string>, order: seq<string>) {
    && Pinned(order, evictable) == Pinned(order0, evictable)
    && Excess(order) <= Excess(order0)
    && EvictFirst(order, evictable, Excess(order)) == EvictFirst(order0, evictable, Excess(order0))
  }

  lemma TrimStarts(queues: Queues, order: seq<string>, results: Results)
    requires OrderMatches(order, results)
    ensures Trimmed(queues, order, results, order, results)
  {
    assert Keep(results, Elements(order)) == results;
  }

  lemma TrimStep(queues: Queues, order0: seq<string>, results0: Results, order: seq<string>, results: Results)
    requires Trimmed(queues, order0, results0, order, results) && |order| > MAX_IDEMPOTENCY_RESULTS
    ensures var p := FirstEvictable(order, Evictable(queues, results));
            if p == |order| then Pinned(order0, Evictable(queues, results0)) > MAX_IDEMPOTENCY_RESULTS
            else order[p] in results && Trimmed(queues, order0, results0, RemoveAt(order, p), results - {order[p]})
  {
    var evictable := Evictable(queues, results0);
    EvictableShrinks(queues, results0, results, order);
    PinnedBound(order, evictable);
    var p := FirstEvictable(order, evictable);
    if p < |order| {
      assert order[p] in Elements(order);
      EvictionAdvances(evictable, order0, order, p);
      RemoveFacts(order, p, results0);
    }
  }

  lemma EvictionAdvances(evictable: set<string>, order0: seq<string>, order: seq<string>, p: nat)
    requires PartlyEvicted(evictable, order0, order) && |order| > MAX_IDEMPOTENCY_RESULTS
    requires p == FirstEvictable(order, evictable) && p < |order|
    ensures PartlyEvicted(evictable, order0, RemoveAt(order, p))
  {
    EvictOne(order, evictable, Excess(order) - 1);
    assert Excess(RemoveAt(order, p)) == Excess(order) - 1;
  }

  lemma TrimEnds(queues: Queues, order0: seq<string>, results0: Results, order: seq<string>, results: Results)
    requires Trimmed(queues, order0, results0, order, results) && |order| <= MAX_IDEMPOTENCY_RESULTS
    ensures order == EvictFirst(order0, Evictable(queues, results0), Excess(order0))
    ensures OrderMatches(order, results)
    ensures Pinned(order0, Evictable(queues, results0)) <= MAX_IDEMPOTENCY_RESULTS
  {
    PinnedBound(order, Evictable(queues, results0));
    assert results.Keys == Elements(order);
  }

  lemma EvictableShrinks(queues: Queues, before: Results, now: Results, order: seq<string>)
    requires now == Keep(before, Elements(order)) && Elements(order) <= before.Keys
    ensures FirstEvictable(order, Evictable(queues, now)) == FirstEvictable(order, Evictable(queues, before))
  {
    SameFirst(order, Evictable(queues, now), Evictable(queues, before));
  }

  lemma {:induction false} SameFirst(order: seq<string>, a: set<string>, b: set<string>)
    requires forall x | x in order :: x in a <==> x in b
    ensures FirstEvictable(order, a) == FirstEvictable(order, b)
  {
    if order != [] {
      SameFirst(order[1..], a, b);
    }
  }

  lemma RemoveFacts(order: seq<string>, p: nat, before: Results)
    requires p < |order| && NoRepeats(order) && Elements(order) <= before.Keys
    ensures NoRepeats(RemoveAt(order, p))
    ensures Elements(RemoveAt(order, p)) == Elements(order) - {order[p]}
    ensures Keep(before, Elements(order)) - {order[p]} == Keep(before, Elements(RemoveAt(order, p)))
  {
    var rest := RemoveAt(order, p);
    forall i | 0 <= i < |rest| ensures rest[i] == order[if i < p then i else i + 1] {
    }
    forall x | x in order && x != order[p] ensures x in rest {
      var i :| 0 <= i < |order| && order[i] == x;
      assert rest[if i < p then i else i - 1] == x;
    }
  }

  lemma SameTable(results: Results, claims: ClaimMap, expected: ClaimMap)
    requires IsClaimTable(results, expected) && claims != expected
    ensures !IsClaimTable(results, claims)
  {
    if IsClaimTable(results, claims) {
      ClaimTableIsUnique(results, claims, expected);
    }
  }

  lemma EqualSizeSubmap(a: ClaimMap, b: ClaimMap)
    requires |a| == |b| && forall key | key in a :: key in b && b[key] == a[key]
    ensures a == b
  {
    assert a.Keys <= b.Keys;
    assert |b.Keys - a.Keys| == |b.Keys| - |a.Keys|;
    assert b.Keys == a.Keys + (b.Keys - a.Keys);
  }
}
