/**
  What the claims of a legacy state have to look like for its normalisation to succeed, and
  how the passes of normalize_commands carry them from canonical to legacy keys.
 */
module LegacyClaims {
  import opened Wrappers
  import opened Sorting
  import opened Snapshot
  import opened LegacyCanonical

  type ClaimMap = map<string, CommandId>

  ghost predicate Sub<V>(a: map<string, V>, b: map<string, V>) {
    forall key | key in a :: key in b && a[key] == b[key]
  }

  /** The claims are exactly legacy scope to command id over the results. */
  ghost predicate IsClaimTable(results: Results, claims: ClaimMap) {
    && (forall x | x in results ::
          LegacyScope(results[x]) in claims && claims[LegacyScope(results[x])] == results[x].commandId)
    && (forall key | key in claims :: IsLegacyKey(results, key))
  }

  ghost predicate IsLegacyKey(results: Results, key: string) {
    exists x :: x in results && LegacyScope(results[x]) == key
  }

  /** No canonical key of a result is the legacy key of a result. */
  ghost predicate KeySpacesDisjoint(results: Results) {
    forall x, y | x in results && y in results :: x != LegacyScope(results[y])
  }

  /** Distinct results have distinct legacy keys. */
  ghost predicate LegacyInjective(results: Results) {
    forall x, y | x in results && y in results && LegacyScope(results[x]) == LegacyScope(results[y]) :: x == y
  }

  /** Every stored claim belongs to a result, under its legacy or its canonical key, and names its command. */
  ghost predicate ClaimsFit(full: Results, claims: ClaimMap) {
    && (forall x | x in full :: ClaimMovable(claims, x, full[x]))
    && (forall key | key in claims :: key in full || IsLegacyKey(full, key))
  }

  // ---------------------------------------------------------------- what a legacy key says

  /** The position of the first separator, or the length if there is none. */
  function FirstSeparator(text: string): (p: nat)
    ensures p <= |text| && (forall i | 0 <= i < p :: text[i] != ':') && (p < |text| ==> text[p] == ':')
  {
    if text == "" || text[0] == ':' then 0 else 1 + FirstSeparator(text[1..])
  }

  /** A legacy key reads back: before the first separator the device, behind it the idempotency key. */
  lemma LegacyKeyReadsBack(c: Command)
    requires ':' !in c.deviceId
    ensures var key, p := LegacyScope(c), FirstSeparator(LegacyScope(c));
            p < |key| && key[..p] == c.deviceId && key[p + 1..] == c.idempotencyKey
  {
    var key := LegacyScope(c);
    assert key == c.deviceId + ":" + c.idempotencyKey;
    assert key[|c.deviceId|] == ':';
    assert forall i | 0 <= i < |c.deviceId| :: key[i] == c.deviceId[i] && c.deviceId[i] in c.deviceId;
    var p := FirstSeparator(key);
    assert p == |c.deviceId|;
  }

  /** For device ids without a separator, results under distinct canonical keys have distinct legacy keys. */
  lemma PlainDevicesAreInjective(k: Codec, results: Results)
    requires forall x | x in results :: ScopeOf(k, results[x]) == x && ':' !in results[x].deviceId
    ensures LegacyInjective(results)
  {
    forall x, y | x in results && y in results && LegacyScope(results[x]) == LegacyScope(results[y]) ensures x == y {
      LegacyKeyReadsBack(results[x]);
      LegacyKeyReadsBack(results[y]);
    }
  }

  /** The claim table of one command, spelled out. */
  lemma OneClaim(k: Codec, c: Command)
    ensures IsClaimTable(map[ScopeOf(k, c) := c], map[c.deviceId + ":" + c.idempotencyKey := c.commandId])
  {
    var results := map[ScopeOf(k, c) := c];
    assert results[ScopeOf(k, c)] == c;
    assert IsLegacyKey(results, LegacyScope(c));
  }

  // ---------------------------------------------------------------- moving one claim

  predicate ClaimMovable(claims: ClaimMap, canonical: string, c: Command) {
    && (LegacyScope(c) in claims ==> claims[LegacyScope(c)] == c.commandId)
    && (canonical in claims ==> claims[canonical] == c.commandId)
  }

  function Moved(claims: ClaimMap, canonical: string, c: Command): ClaimMap {
    var ensured := claims[LegacyScope(c) := c.commandId];
    if canonical == LegacyScope(c) then ensured else ensured - {canonical}
  }

  /** The results outside `todo` have their claims under legacy keys only; other claims are untouched. */
  ghost predicate MovedSoFar(results: Results, before: ClaimMap, claims: ClaimMap, todo: set<string>) {
    && (forall x | x in results && x !in todo ::
          && LegacyScope(results[x]) in claims && claims[LegacyScope(results[x])] == results[x].commandId
          && (x in before ==> before[x] == results[x].commandId)
          && x !in claims)
    && (forall key | key in before && !(key in results && key !in todo) :: key in claims && claims[key] == before[key])
    && (forall key | key in claims :: key in before || IsLegacyKey(results, key))
  }

  lemma MovedGrows(results: Results, before: ClaimMap, claims: ClaimMap, todo: set<string>, x: string)
    requires KeySpacesDisjoint(results) && MovedSoFar(results, before, claims, todo)
    requires x in results && x in todo && ClaimMovable(claims, x, results[x])
    ensures MovedSoFar(results, before, Moved(claims, x, results[x]), todo - {x})
  {
    var moved := Moved(claims, x, results[x]);
    assert IsLegacyKey(results, LegacyScope(results[x]));
    forall y | y in results && y !in todo - {x}
      ensures && LegacyScope(results[y]) in moved && moved[LegacyScope(results[y])] == results[y].commandId
              && (y in before ==> before[y] == results[y].commandId)
              && y !in moved
    {
      assert x != LegacyScope(results[y]) && y != LegacyScope(results[x]);
    }
    assert x in before ==> x in claims && claims[x] == before[x];
  }

  // ---------------------------------------------------------------- moving all claims in some order

  /** The claims after moving those of `keys` in that order, and how many canonical claims were dropped. */
  function MoveRun(results: Results, claims: ClaimMap, keys: seq<string>): Option<(ClaimMap, nat)>
    requires forall i | 0 <= i < |keys| :: keys[i] in results
  {
    if keys == [] then Some((claims, 0))
    else
      var n := |keys| - 1;
      match MoveRun(results, claims, keys[..n])
      case None => None
      case Some((before, dropped)) =>
        if !ClaimMovable(before, keys[n], results[keys[n]]) then None
        else Some((Moved(before, keys[n], results[keys[n]]), dropped + Drops(before, keys[n], results[keys[n]])))
  }

  /** How many claims under the canonical key one move drops. */
  function Drops(claims: ClaimMap, canonical: string, c: Command): nat {
    if canonical in claims && canonical != LegacyScope(c) then 1 else 0
  }

  lemma MoveRunSnoc(
    results: Results, before: ClaimMap, keys: seq<string>, todo: set<string>, key: string,
    claims: ClaimMap, dropped: nat)
    requires Taken(results, keys, todo) && key in todo && MoveRun(results, before, keys) == Some((claims, dropped))
    ensures Taken(results, keys + [key], todo - {key})
    ensures ClaimMovable(claims, key, results[key]) ==>
              MoveRun(results, before, keys + [key])
                == Some((Moved(claims, key, results[key]), dropped + Drops(claims, key, results[key])))
    ensures !ClaimMovable(claims, key, results[key]) ==> MoveRun(results, before, keys + [key]) == None
  {
    assert (keys + [key])[..|keys|] == keys;
  }

  /** The keys among `keys` that held a claim. */
  function Claimed(claims: ClaimMap, keys: seq<string>): set<string> {
    set key | key in keys && key in claims
  }

  lemma ClaimedSnoc(claims: ClaimMap, keys: seq<string>)
    requires keys != [] && NoRepeats(keys)
    ensures var n := |keys| - 1;
            |Claimed(claims, keys)| == |Claimed(claims, keys[..n])| + if keys[n] in claims then 1 else 0
  {
    var n := |keys| - 1;
    assert keys == keys[..n] + [keys[n]];
    assert keys[n] !in keys[..n];
    if keys[n] in claims {
      assert Claimed(claims, keys) == Claimed(claims, keys[..n]) + {keys[n]};
    } else {
      assert Claimed(claims, keys) == Claimed(claims, keys[..n]);
    }
  }

  lemma TakenFront(results: Results, keys: seq<string>, todo: set<string>)
    requires keys != [] && Taken(results, keys, todo)
    ensures var n := |keys| - 1;
            Taken(results, keys[..n], todo + {keys[n]}) && keys[n] !in todo
  {
    var n := |keys| - 1;
    assert keys == keys[..n] + [keys[n]];
    assert Rest(results, keys[..n]) == todo + {keys[n]};
  }

  /** With disjoint key spaces every order moves all claims cleanly and drops exactly the canonical ones. */
  lemma {:induction false} MoveRunIsClean(results: Results, claims: ClaimMap, keys: seq<string>, todo: set<string>)
    requires Taken(results, keys, todo) && KeySpacesDisjoint(results) && MoveRun(results, claims, keys).Some?
    ensures MovedSoFar(results, claims, MoveRun(results, claims, keys).value.0, todo)
    ensures MoveRun(results, claims, keys).value.1 == |Claimed(claims, keys)|
  {
    if keys != [] {
      var n := |keys| - 1;
      var key := keys[n];
      TakenFront(results, keys, todo);
      MoveRunIsClean(results, claims, keys[..n], todo + {key});
      var before := MoveRun(results, claims, keys[..n]).value.0;
      MovedGrows(results, claims, before, todo + {key}, key);
      assert todo + {key} - {key} == todo;
      ClaimedSnoc(claims, keys);
      ClaimUntouched(results, claims, before, todo + {key}, key);
    } else {
      assert Claimed(claims, keys) == {};
    }
  }

  lemma ClaimUntouched(results: Results, before: ClaimMap, claims: ClaimMap, todo: set<string>, key: string)
    requires KeySpacesDisjoint(results) && MovedSoFar(results, before, claims, todo) && key in results && key in todo
    ensures Drops(claims, key, results[key]) == if key in before then 1 else 0
  {
    assert !IsLegacyKey(results, key);
  }

  /** Within a target every order succeeds and stays within it. */
  lemma {:induction false} MoveRunWithin(results: Results, claims: ClaimMap, target: ClaimMap, keys: seq<string>)
    requires forall i | 0 <= i < |keys| :: keys[i] in results
    requires Sub(claims, target)
    requires forall x | x in results :: LegacyScope(results[x]) in target && ClaimMovable(target, x, results[x])
    ensures MoveRun(results, claims, keys).Some? && Sub(MoveRun(results, claims, keys).value.0, target)
  {
    if keys != [] {
      var n := |keys| - 1;
      MoveRunWithin(results, claims, target, keys[..n]);
      TargetMoves(results, MoveRun(results, claims, keys[..n]).value.0, target, keys[n]);
    }
  }

  lemma SettledClaimStays(results: Results, claims: ClaimMap, canonical: string)
    requires IsClaimTable(results, claims) && KeySpacesDisjoint(results) && canonical in results
    ensures canonical !in claims && LegacyScope(results[canonical]) in claims
    ensures ClaimMovable(claims, canonical, results[canonical])
    ensures Moved(claims, canonical, results[canonical]) == claims
  {
    assert !IsLegacyKey(results, canonical);
  }

  /** Claims that are already in place stay as they are. */
  lemma {:induction false} MoveRunSettled(results: Results, claims: ClaimMap, keys: seq<string>)
    requires forall i | 0 <= i < |keys| :: keys[i] in results
    requires IsClaimTable(results, claims) && KeySpacesDisjoint(results)
    ensures MoveRun(results, claims, keys) == Some((claims, 0))
  {
    if keys != [] {
      MoveRunSettled(results, claims, keys[..|keys| - 1]);
      SettledClaimStays(results, claims, keys[|keys| - 1]);
    }
  }

  // ---------------------------------------------------------------- a target for all passes

  /** A claim map all intermediate ones stay within when the stored claims fit. */
  ghost predicate IsTarget(full: Results, claims: ClaimMap, target: ClaimMap) {
    && Sub(claims, target)
    && (forall x | x in full :: LegacyScope(full[x]) in target && ClaimMovable(target, x, full[x]))
    && (forall key | key in target :: key in full || IsLegacyKey(full, key))
  }

  lemma TargetExists(full: Results, claims: ClaimMap) returns (target: ClaimMap)
    requires ClaimsFit(full, claims) && LegacyInjective(full) && KeySpacesDisjoint(full)
    ensures IsTarget(full, claims, target)
  {
    var table := map x | x in full :: LegacyScope(full[x]) := full[x].commandId;
    forall x | x in full
      ensures LegacyScope(full[x]) in table && table[LegacyScope(full[x])] == full[x].commandId && x !in table
    {
    }
    target := claims + table;
    forall key | key in claims ensures key in target && target[key] == claims[key] {
      if key in table {
        var x :| x in full && LegacyScope(full[x]) == key;
        assert ClaimMovable(claims, x, full[x]);
      }
    }
    forall x | x in full ensures LegacyScope(full[x]) in target && ClaimMovable(target, x, full[x]) {
      assert ClaimMovable(claims, x, full[x]);
    }
    forall key | key in target ensures key in full || IsLegacyKey(full, key) {
      if key in table {
        assert IsLegacyKey(full, key);
      }
    }
  }

  /** Within a target every claim can be moved, and stays within it. */
  lemma TargetMoves(full: Results, claims: ClaimMap, target: ClaimMap, x: string)
    requires Sub(claims, target) && x in full && LegacyScope(full[x]) in target && ClaimMovable(target, x, full[x])
    ensures ClaimMovable(claims, x, full[x])
    ensures Sub(claims[LegacyScope(full[x]) := full[x].commandId], target)
    ensures Sub(Moved(claims, x, full[x]), target)
  {
  }

  /** Once all claims have moved within a target, they are exactly the claim table. */
  lemma MovedIsTable(full: Results, before: ClaimMap, target: ClaimMap, claims: ClaimMap)
    requires IsTarget(full, before, target) && MovedSoFar(full, before, claims, {})
    ensures IsClaimTable(full, claims)
  {
    forall key | key in claims ensures IsLegacyKey(full, key) {
      if key in before {
        assert key in target;
      }
    }
  }

  // ---------------------------------------------------------------- eviction

  function Forget(claims: ClaimMap, key: string, id: CommandId): ClaimMap {
    if key in claims && claims[key] == id then claims - {key} else claims
  }

  function Forgotten(claims: ClaimMap, canonical: string, c: Command): ClaimMap {
    Forget(Forget(claims, LegacyScope(c), c.commandId), canonical, c.commandId)
  }

  /** Only claims under keys of the results may have gone. */
  ghost predicate OnlyOwnGone(results: Results, before: ClaimMap, claims: ClaimMap) {
    forall key | key in before && key !in results && !IsLegacyKey(results, key) :: key in claims
  }

  lemma EvictedClaims(results0: Results, before: ClaimMap, claims: ClaimMap, x: string)
    requires x in results0 && OnlyOwnGone(results0, before, claims)
    ensures OnlyOwnGone(results0, before, Forgotten(claims, x, results0[x]))
  {
    assert IsLegacyKey(results0, LegacyScope(results0[x]));
  }

  /** Evicting a result with its claim leaves the claim table of the rest. */
  lemma EvictedTable(results: Results, claims: ClaimMap, x: string)
    requires IsClaimTable(results, claims) && LegacyInjective(results) && KeySpacesDisjoint(results) && x in results
    ensures IsClaimTable(results - {x}, Forgotten(claims, x, results[x]))
  {
    var rest, kept := results - {x}, Forgotten(claims, x, results[x]);
    assert x !in claims;
    assert kept == claims - {LegacyScope(results[x])};
    forall y | y in rest ensures LegacyScope(rest[y]) in kept && kept[LegacyScope(rest[y])] == rest[y].commandId {
    }
    forall key | key in kept ensures IsLegacyKey(rest, key) {
      var y :| y in results && LegacyScope(results[y]) == key;
      assert y in rest;
    }
  }

  /** The stored claims were completed and then all moved to legacy keys. */
  ghost predicate ClaimsMoved(full: Results, claims0: ClaimMap, moved: ClaimMap) {
    exists recovered :: Sub(claims0, recovered) && MovedSoFar(full, recovered, moved, {})
  }

  /** A normalisation that went through started from claims that fit. */
  lemma SuccessMeansFit(full: Results, claims0: ClaimMap, moved: ClaimMap, results: Results, claims: ClaimMap)
    requires KeySpacesDisjoint(full)
    requires ClaimsMoved(full, claims0, moved) && OnlyOwnGone(full, moved, claims)
    requires Sub(results, full) && IsClaimTable(results, claims)
    ensures ClaimsFit(full, claims0)
  {
    var recovered :| Sub(claims0, recovered) && MovedSoFar(full, recovered, moved, {});
    forall key | IsLegacyKey(results, key) ensures IsLegacyKey(full, key) {
      var x :| x in results && LegacyScope(results[x]) == key;
      assert x in full && LegacyScope(full[x]) == key;
    }
    forall x | x in full ensures ClaimMovable(claims0, x, full[x]) {
      assert LegacyScope(full[x]) !in full;
    }
  }

  // ---------------------------------------------------------------- counting

  ghost function LegacyKeys(results: Results): set<string> {
    set x | x in results :: LegacyScope(results[x])
  }

  /** Before eviction, the claims of a run that got through are exactly under the legacy keys. */
  lemma MovedUnderLegacyKeys(
    full: Results, claims0: ClaimMap, moved: ClaimMap, results: Results, claims: ClaimMap)
    requires KeySpacesDisjoint(full) && ClaimsMoved(full, claims0, moved) && OnlyOwnGone(full, moved, claims)
    requires Sub(results, full) && IsClaimTable(results, claims)
    ensures moved.Keys == LegacyKeys(full)
  {
    var recovered :| Sub(claims0, recovered) && MovedSoFar(full, recovered, moved, {});
    forall key | IsLegacyKey(results, key) ensures IsLegacyKey(full, key) {
      var x :| x in results && LegacyScope(results[x]) == key;
      assert x in full && LegacyScope(full[x]) == key;
    }
    forall key | key in moved ensures key in LegacyKeys(full) {
      assert key !in full;
      assert IsLegacyKey(full, key);
    }
  }

  /** The stored claims split into those under canonical and those under legacy keys. */
  lemma ClaimsSplit(full: Results, claims: ClaimMap)
    requires KeySpacesDisjoint(full) && ClaimsFit(full, claims)
    ensures |LegacyKeys(full)| - |claims| + |full.Keys * claims.Keys| == |LegacyKeys(full) - claims.Keys|
  {
    forall key | key in claims ensures key in full || key in LegacyKeys(full) {
      assert key in full || IsLegacyKey(full, key);
    }
    SplitCount(LegacyKeys(full), claims.Keys, full.Keys * claims.Keys);
  }

  lemma SplitCount(legacy: set<string>, stored: set<string>, canonical: set<string>)
    requires canonical <= stored <= canonical + legacy && canonical !! legacy
    ensures |legacy| - |stored| + |canonical| == |legacy - stored|
  {
    assert stored == canonical + (legacy * stored);
    assert legacy == (legacy - stored) + (legacy * stored);
  }
}
