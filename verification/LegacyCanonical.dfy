/**
  The first pass of normalize_commands: every stored result moves to its command's canonical
  key. The source walks a hash map, so the order of the entries is arbitrary.
 */
module LegacyCanonical {
  import opened Wrappers
  import opened Counting
  import opened Snapshot
  import opened Sorting
  import opened CycleFinder

  datatype LegacyViolation =
    | ConflictingCommandResult
    | ConflictingLegacyClaim
    | OrphanLegacyClaim
    | ReplayCapacityExceeded
    | ReplayOrderInconsistent
    | PendingDeviceMismatch

  function LegacyScope(c: Command): string {
    c.deviceId + ":" + c.idempotencyKey
  }

  type Results = map<string, Command>

  /** What the pass does with one entry of the copied list. */
  function CanonStep(k: Codec, results: Results, key: string, command: Command): Result<Results, LegacyViolation> {
    var canonical := ScopeOf(k, command);
    if key == canonical then Ok(results)
    else
      var removed := results - {key};
      if canonical in removed && removed[canonical] != command then Err(ConflictingCommandResult)
      else Ok(removed[canonical := command])
  }

  /** The pass over the entries in a given order. */
  function CanonRun(k: Codec, results: Results, entries: Results, keys: seq<string>): Result<Results, LegacyViolation>
    requires forall i | 0 <= i < |keys| :: keys[i] in entries
  {
    if keys == [] then Ok(results)
    else
      var n := |keys| - 1;
      var before :- CanonRun(k, results, entries, keys[..n]);
      CanonStep(k, before, keys[n], entries[keys[n]])
  }

  /** Entries outside `todo` are found under their canonical keys, those in `todo` where they were stored. */
  ghost predicate CanonInv(k: Codec, entries: Results, todo: set<string>, results: Results) {
    && (forall key | key in entries && key !in todo ::
          ScopeOf(k, entries[key]) in results && results[ScopeOf(k, entries[key])] == entries[key])
    && (forall key | key in entries && key in todo :: key in results && results[key] == entries[key])
    && (forall x | x in results :: (x in entries && x in todo)
                                   || exists key :: key in entries && key !in todo && ScopeOf(k, entries[key]) == x)
  }

  lemma CanonStepKeepsInv(k: Codec, entries: Results, todo: set<string>, results: Results, key: string)
    requires CanonInv(k, entries, todo, results) && key in todo && key in entries
    requires CanonStep(k, results, key, entries[key]).Ok?
    ensures CanonInv(k, entries, todo - {key}, CanonStep(k, results, key, entries[key]).value)
  {
    var results' := CanonStep(k, results, key, entries[key]).value;
    forall x | x in results'
      ensures (x in entries && x in todo - {key})
              || exists e :: e in entries && e !in todo - {key} && ScopeOf(k, entries[e]) == x
    {
      if x == ScopeOf(k, entries[key]) {
        assert key !in todo - {key};
      } else {
        assert x in results;
        if !(x in entries && x in todo) {
          var e :| e in entries && e !in todo && ScopeOf(k, entries[e]) == x;
          assert e !in todo - {key};
        }
      }
    }
  }

  /** Commands with one canonical key are one command. */
  ghost predicate Consistent(k: Codec, entries: Results) {
    forall a, b | a in entries && b in entries && ScopeOf(k, entries[a]) == ScopeOf(k, entries[b]) ::
      entries[a] == entries[b]
  }

  /** No misplaced entry occupies the canonical key of another. */
  ghost predicate NothingMisfiled(k: Codec, entries: Results) {
    forall a, b | a in entries && b in entries && ScopeOf(k, entries[a]) != a :: ScopeOf(k, entries[b]) != a
  }

  /** The result of a successful pass: exactly the entries, under their canonical keys. */
  ghost predicate IsCanonical(k: Codec, entries: Results, results: Results) {
    && (forall key | key in entries ::
          ScopeOf(k, entries[key]) in results && results[ScopeOf(k, entries[key])] == entries[key])
    && (forall x | x in results :: exists key :: key in entries && ScopeOf(k, entries[key]) == x)
  }

  lemma CanonEnds(k: Codec, entries: Results, results: Results)
    requires CanonInv(k, entries, {}, results)
    ensures IsCanonical(k, entries, results) && Consistent(k, entries)
  {
  }

  lemma GoodStepsSucceed(k: Codec, entries: Results, todo: set<string>, results: Results, key: string)
    requires CanonInv(k, entries, todo, results) && key in todo && key in entries
    requires Consistent(k, entries) && NothingMisfiled(k, entries)
    ensures CanonStep(k, results, key, entries[key]).Ok?
  {
    var canonical := ScopeOf(k, entries[key]);
    if key != canonical && canonical in results - {key} {
      assert canonical in results;
      if !(canonical in entries && canonical in todo) {
        var e :| e in entries && e !in todo && ScopeOf(k, entries[e]) == canonical;
        assert results[canonical] == entries[e];
      }
    }
  }

  predicate Enumerates(keys: seq<string>, entries: Results) {
    && (forall i | 0 <= i < |keys| :: keys[i] in entries)
    && (forall key | key in entries :: key in keys)
    && NoRepeats(keys)
  }

  function Rest(entries: Results, keys: seq<string>): set<string> {
    entries.Keys - set key | key in keys
  }

  lemma {:induction false} CanonRunInv(k: Codec, entries: Results, keys: seq<string>)
    requires forall i | 0 <= i < |keys| :: keys[i] in entries
    requires NoRepeats(keys)
    ensures CanonRun(k, entries, entries, keys).Ok? ==>
              CanonInv(k, entries, Rest(entries, keys), CanonRun(k, entries, entries, keys).value)
    ensures Consistent(k, entries) && NothingMisfiled(k, entries) ==> CanonRun(k, entries, entries, keys).Ok?
  {
    if keys != [] {
      var n := |keys| - 1;
      CanonRunInv(k, entries, keys[..n]);
      var before := CanonRun(k, entries, entries, keys[..n]);
      var todo := Rest(entries, keys[..n]);
      assert keys[n] in todo;
      assert Rest(entries, keys) == todo - {keys[n]} by {
        assert keys == keys[..n] + [keys[n]];
      }
      if before.Ok? {
        if CanonStep(k, before.value, keys[n], entries[keys[n]]).Ok? {
          CanonStepKeepsInv(k, entries, todo, before.value, keys[n]);
        }
        if Consistent(k, entries) && NothingMisfiled(k, entries) {
          GoodStepsSucceed(k, entries, todo, before.value, keys[n]);
        }
      }
    }
  }

  lemma {:induction false} CanonFailsEarly(k: Codec, results: Results, entries: Results, keys: seq<string>, n: nat)
    requires forall i | 0 <= i < |keys| :: keys[i] in entries
    requires n <= |keys| && CanonRun(k, results, entries, keys[..n]).Err?
    ensures CanonRun(k, results, entries, keys).Err?
  {
    if n == |keys| {
      assert keys[..n] == keys;
    } else {
      assert keys[..|keys| - 1][..n] == keys[..n];
      CanonFailsEarly(k, results, entries, keys[..|keys| - 1], n);
    }
  }

  /** Starting with `a` and then `b`, a clash between the two is found at once. */
  lemma ClashFailsInOrder(k: Codec, entries: Results, a: string, b: string)
    requires a in entries && b in entries && a != b
    requires (ScopeOf(k, entries[a]) == ScopeOf(k, entries[b]) && entries[a] != entries[b])
          || (ScopeOf(k, entries[b]) != b && ScopeOf(k, entries[a]) == b)
    ensures CanonRun(k, entries, entries, [a, b]).Err?
  {
    assert [a, b][..1] == [a] && [a][..0] == [];
    assert CanonRun(k, entries, entries, []) == Ok(entries);
    assert CanonRun(k, entries, entries, [a]) == CanonStep(k, entries, a, entries[a]);
  }

  lemma EnumerateFrom(entries: Results, start: seq<string>, more: set<string>) returns (keys: seq<string>)
    requires NoRepeats(start)
    requires forall i | 0 <= i < |start| :: start[i] in entries
    requires more == Rest(entries, start)
    ensures start <= keys && Enumerates(keys, entries)
    decreases more
  {
    if more == {} {
      keys := start;
      forall key | key in entries ensures key in keys {
        assert key !in Rest(entries, start);
      }
    } else {
      var key :| key in more;
      var start' := start + [key];
      assert Rest(entries, start') == more - {key};
      keys := EnumerateFrom(entries, start', more - {key});
    }
  }

  /**
    Success can depend on the hash order: every order succeeds exactly when the entries are
    consistent and no misplaced entry occupies the canonical key of another.
   */
  lemma EveryOrderSucceedsIff(k: Codec, entries: Results)
    ensures (forall keys | Enumerates(keys, entries) :: CanonRun(k, entries, entries, keys).Ok?)
       <==> Consistent(k, entries) && NothingMisfiled(k, entries)
  {
    if Consistent(k, entries) && NothingMisfiled(k, entries) {
      forall keys | Enumerates(keys, entries) ensures CanonRun(k, entries, entries, keys).Ok? {
        CanonRunInv(k, entries, keys);
      }
    } else {
      var a, b: string;
      if !Consistent(k, entries) {
        a, b :| a in entries && b in entries && ScopeOf(k, entries[a]) == ScopeOf(k, entries[b])
                && entries[a] != entries[b];
      } else {
        b, a :| a in entries && b in entries && ScopeOf(k, entries[b]) != b && ScopeOf(k, entries[a]) == b;
      }
      ClashFailsInOrder(k, entries, a, b);
      var keys := EnumerateFrom(entries, [a, b], Rest(entries, [a, b]));
      assert keys[..2] == [a, b];
      CanonFailsEarly(k, entries, entries, keys, 2);
    }
  }

  /** The keys that move. */
  function Misplaced(k: Codec, entries: Results): set<string> {
    set key | key in entries && ScopeOf(k, entries[key]) != key
  }

  /** A misplaced entry waits for the misplaced entry that occupies its canonical key. */
  function MoveGraph(k: Codec, entries: Results): Graph {
    map key | key in entries && ScopeOf(k, entries[key]) != key ::
      set target | target in Misplaced(k, entries) && target == ScopeOf(k, entries[key])
  }

  /** Among consistent entries a step fails exactly when its canonical key is still occupied by a misplaced one. */
  lemma StepSucceedsIff(k: Codec, entries: Results, todo: set<string>, results: Results, key: string)
    requires CanonInv(k, entries, todo, results) && key in todo && key in entries && Consistent(k, entries)
    ensures CanonStep(k, results, key, entries[key]).Ok? <==> Dependencies(MoveGraph(k, entries), key) !! todo
  {
    var canonical := ScopeOf(k, entries[key]);
    if key != canonical {
      assert Dependencies(MoveGraph(k, entries), key)
          == set target | target in Misplaced(k, entries) && target == canonical;
      if canonical in entries && canonical in todo {
        assert results[canonical] == entries[canonical];
        assert canonical in results - {key};
      } else if canonical in results {
        var e :| e in entries && e !in todo && ScopeOf(k, entries[e]) == canonical;
        assert results[canonical] == entries[e] == entries[key];
      }
    }
  }

  lemma FinishOrderPrefix(g: Graph, keys: seq<string>)
    requires keys != []
    ensures var front, last := keys[..|keys| - 1], keys[|keys| - 1];
            IsFinishOrder(g, keys) <==> IsFinishOrder(g, front) && forall d | d in Dependencies(g, last) :: d in front
  {
    var n := |keys| - 1;
    assert forall i | 0 <= i <= n :: keys[..n][..i] == keys[..i];
    if IsFinishOrder(g, keys) {
      forall i, d | 0 <= i < n && d in Dependencies(g, keys[..n][i]) ensures d in keys[..n][..i] {
        assert keys[..n][i] == keys[i];
      }
    } else {
      var i :| 0 <= i < |keys| && exists d :: d in Dependencies(g, keys[i]) && d !in keys[..i];
      if i < n {
        assert keys[..n][i] == keys[i];
      }
    }
  }

  lemma {:induction false} ConsistentRunSucceedsIff(k: Codec, entries: Results, keys: seq<string>)
    requires Consistent(k, entries) && NoRepeats(keys) && forall i | 0 <= i < |keys| :: keys[i] in entries
    ensures CanonRun(k, entries, entries, keys).Ok? <==> IsFinishOrder(MoveGraph(k, entries), keys)
  {
    if keys != [] {
      var g, n := MoveGraph(k, entries), |keys| - 1;
      ConsistentRunSucceedsIff(k, entries, keys[..n]);
      FinishOrderPrefix(g, keys);
      if CanonRun(k, entries, entries, keys[..n]).Ok? {
        var todo := Rest(entries, keys[..n]);
        CanonRunInv(k, entries, keys[..n]);
        StepSucceedsIff(k, entries, todo, CanonRun(k, entries, entries, keys[..n]).value, keys[n]);
        assert forall d | d in Dependencies(g, keys[n]) :: d in entries;
      }
    }
  }

  /** Which orders succeed: those of consistent entries in which every occupier moves away before it is in the way. */
  lemma OrderSucceedsIff(k: Codec, entries: Results, keys: seq<string>)
    requires Enumerates(keys, entries)
    ensures CanonRun(k, entries, entries, keys).Ok?
       <==> Consistent(k, entries) && IsFinishOrder(MoveGraph(k, entries), keys)
  {
    if CanonRun(k, entries, entries, keys).Ok? {
      CanonRunInv(k, entries, keys);
      assert Rest(entries, keys) == {};
      CanonEnds(k, entries, CanonRun(k, entries, entries, keys).value);
    }
    if Consistent(k, entries) {
      ConsistentRunSucceedsIff(k, entries, keys);
    }
  }

  ghost predicate SomeOrderSucceeds(k: Codec, entries: Results) {
    exists keys :: Enumerates(keys, entries) && CanonRun(k, entries, entries, keys).Ok?
  }

  ghost predicate SomeOrderFails(k: Codec, entries: Results) {
    exists keys :: Enumerates(keys, entries) && CanonRun(k, entries, entries, keys).Err?
  }

  /** Some order succeeds exactly when entries are consistent and none occupy each other's keys in a circle. */
  lemma SomeOrderSucceedsIff(k: Codec, entries: Results)
    ensures SomeOrderSucceeds(k, entries) <==> Consistent(k, entries) && Acyclic(MoveGraph(k, entries))
  {
    var g := MoveGraph(k, entries);
    if SomeOrderSucceeds(k, entries) {
      var keys :| Enumerates(keys, entries) && CanonRun(k, entries, entries, keys).Ok?;
      OrderSucceedsIff(k, entries, keys);
      forall walk ensures !IsCycle(g, walk) {
        FinishedGraphsAreAcyclic(g, keys, walk);
      }
    }
    if Consistent(k, entries) && Acyclic(g) {
      assert forall n | n in entries.Keys :: Dependencies(g, n) <= entries.Keys;
      var keys := FinishOrderExtends(g, entries.Keys, []);
      assert forall i | 0 <= i < |keys| :: keys[i] in keys;
      OrderSucceedsIff(k, entries, keys);
    }
  }

  /**
    The verdict of this pass depends on the order of the map exactly when the entries are
    consistent, some misplaced entry occupies the canonical key of another, and none do so in a
    circle. In all other cases either every order succeeds or every order is refused.
   */
  lemma OrderMattersIff(k: Codec, entries: Results)
    ensures SomeOrderSucceeds(k, entries) && SomeOrderFails(k, entries)
       <==> Consistent(k, entries) && !NothingMisfiled(k, entries) && Acyclic(MoveGraph(k, entries))
  {
    SomeOrderSucceedsIff(k, entries);
    EveryOrderSucceedsIff(k, entries);
    assert SomeOrderFails(k, entries)
      <==> !forall keys | Enumerates(keys, entries) :: CanonRun(k, entries, entries, keys).Ok?;
  }

  /** Two entries under each other's canonical keys are refused in every order, although they are consistent. */
  lemma SwappedEntriesAreRefused(k: Codec, first: Command, second: Command)
    requires ScopeOf(k, first) != ScopeOf(k, second)
    ensures var entries := map[ScopeOf(k, second) := first, ScopeOf(k, first) := second];
            Consistent(k, entries) && !SomeOrderSucceeds(k, entries)
  {
    var a, b := ScopeOf(k, second), ScopeOf(k, first);
    var entries := map[a := first, b := second];
    var g := MoveGraph(k, entries);
    assert b in Dependencies(g, a) && a in Dependencies(g, b);
    assert IsCycle(g, [a, b, a]);
    SomeOrderSucceedsIff(k, entries);
  }

  /** Confluence: orders that succeed agree. */
  lemma SuccessfulOrdersAgree(k: Codec, entries: Results, keys: seq<string>, keys': seq<string>)
    requires Enumerates(keys, entries) && Enumerates(keys', entries)
    requires CanonRun(k, entries, entries, keys).Ok? && CanonRun(k, entries, entries, keys').Ok?
    ensures CanonRun(k, entries, entries, keys) == CanonRun(k, entries, entries, keys')
  {
    CanonRunInv(k, entries, keys);
    CanonRunInv(k, entries, keys');
    assert Rest(entries, keys) == {} && Rest(entries, keys') == {};
    CanonEnds(k, entries, CanonRun(k, entries, entries, keys).value);
    CanonEnds(k, entries, CanonRun(k, entries, entries, keys').value);
    CanonicalIsUnique(k, entries,
      CanonRun(k, entries, entries, keys).value, CanonRun(k, entries, entries, keys').value);
  }

  lemma CanonicalIsUnique(k: Codec, entries: Results, a: Results, b: Results)
    requires IsCanonical(k, entries, a) && IsCanonical(k, entries, b)
    ensures a == b
  {
    forall x | x in a ensures x in b && a[x] == b[x] {
      var key :| key in entries && ScopeOf(k, entries[key]) == x;
    }
    forall x | x in b ensures x in a {
      var key :| key in entries && ScopeOf(k, entries[key]) == x;
    }
  }

  /** An entry stored under another's canonical key: one order normalises, the other refuses. */
  lemma OrderCanMatter(k: Codec, first: Command, second: Command, spare: string)
    requires ScopeOf(k, first) != ScopeOf(k, second)
    requires spare != ScopeOf(k, first) && spare != ScopeOf(k, second)
    ensures var at := ScopeOf(k, second);
            var entries := map[at := first, spare := second];
            && CanonRun(k, entries, entries, [at, spare]).Ok?
            && CanonRun(k, entries, entries, [spare, at]).Err?
  {
    var at := ScopeOf(k, second);
    var entries := map[at := first, spare := second];
    assert [at, spare][..1] == [at] && [at][..0] == [];
    assert [spare, at][..1] == [spare] && [spare][..0] == [];
    assert CanonRun(k, entries, entries, []) == Ok(entries);
    assert CanonRun(k, entries, entries, [at]) == CanonStep(k, entries, at, first);
    assert CanonRun(k, entries, entries, [spare]) == CanonStep(k, entries, spare, second);
  }

  /** The keys taken so far, in the order they were taken. */
  ghost predicate Taken(entries: Results, keys: seq<string>, todo: set<string>) {
    NoRepeats(keys) && (forall i | 0 <= i < |keys| :: keys[i] in entries) && todo == Rest(entries, keys)
  }

  lemma RunContinues(k: Codec, entries: Results, keys: seq<string>, todo: set<string>, results: Results, key: string)
    requires Taken(entries, keys, todo) && key in todo && CanonRun(k, entries, entries, keys) == Ok(results)
    ensures Taken(entries, keys + [key], todo - {key})
    ensures CanonRun(k, entries, entries, keys + [key]) == CanonStep(k, results, key, entries[key])
  {
    assert (keys + [key])[..|keys|] == keys;
  }

  lemma {:induction false} RunError(k: Codec, entries: Results, keys: seq<string>)
    requires (forall i | 0 <= i < |keys| :: keys[i] in entries) && CanonRun(k, entries, entries, keys).Err?
    ensures CanonRun(k, entries, entries, keys).error == ConflictingCommandResult
  {
    if keys != [] && CanonRun(k, entries, entries, keys[..|keys| - 1]).Err? {
      RunError(k, entries, keys[..|keys| - 1]);
    }
  }

  lemma RunFails(k: Codec, entries: Results, keys: seq<string>, todo: set<string>)
    requires Taken(entries, keys, todo) && CanonRun(k, entries, entries, keys).Err?
    ensures SomeOrderFails(k, entries) && !(Consistent(k, entries) && NothingMisfiled(k, entries))
    ensures CanonRun(k, entries, entries, keys).error == ConflictingCommandResult
  {
    RunError(k, entries, keys);
    var all := EnumerateFrom(entries, keys, todo);
    assert all[..|keys|] == keys;
    CanonFailsEarly(k, entries, entries, all, |keys|);
    CanonRunInv(k, entries, keys);
  }

  lemma RunSucceeds(k: Codec, entries: Results, keys: seq<string>, results: Results)
    requires Taken(entries, keys, {}) && CanonRun(k, entries, entries, keys) == Ok(results)
    ensures SomeOrderSucceeds(k, entries) && IsCanonical(k, entries, results) && Consistent(k, entries)
  {
    forall key | key in entries ensures key in keys {
      assert key !in Rest(entries, keys);
    }
    assert Enumerates(keys, entries);
    CanonRunInv(k, entries, keys);
    CanonEnds(k, entries, results);
  }

  /** The loop over a copy of the entries, in whatever order the map yields them; `keys` is that order. */
  method MoveEntries(k: Codec, entries: Results)
    returns (r: Result<Results, LegacyViolation>, moved: nat, ghost keys: seq<string>, ghost rest: set<string>)
    ensures Taken(entries, keys, rest) && r == CanonRun(k, entries, entries, keys)
    ensures r.Ok? ==> rest == {} && moved == |Misplaced(k, entries)|
  {
    ghost var misplaced := Misplaced(k, entries);
    keys := [];
    var results := entries;
    var todo := entries.Keys;
    moved := 0;
    ProgressStarts(misplaced, todo);
    while todo != {}
      invariant Taken(entries, keys, todo)
      invariant CanonRun(k, entries, entries, keys) == Ok(results)
      invariant moved == |misplaced - todo|
      decreases todo
    {
      var key :| key in todo;
      Progress(misplaced, todo, key);
      RunContinues(k, entries, keys, todo, results, key);
      var step := CanonStep(k, results, key, entries[key]);
      keys := keys + [key];
      todo := todo - {key};
      if step.Err? {
        return Err(step.error), moved, keys, todo;
      }
      if key != ScopeOf(k, entries[key]) {
        moved := moved + 1;
      }
      results := step.value;
    }
    ProgressEnds(misplaced);
    return Ok(results), moved, keys, todo;
  }

  /** The first pass as its caller sees it: one of the possible orders was taken. */
  method Canonicalize(k: Codec, entries: Results) returns (r: Result<Results, LegacyViolation>, moved: nat)
    ensures r.Ok? ==> IsCanonical(k, entries, r.value) && Consistent(k, entries) && moved == |Misplaced(k, entries)|
    ensures Consistent(k, entries) && NothingMisfiled(k, entries) ==> r.Ok?
    ensures if r.Ok? then SomeOrderSucceeds(k, entries) else SomeOrderFails(k, entries)
    ensures r.Err? ==> r.error == ConflictingCommandResult
  {
    ghost var keys, rest;
    r, moved, keys, rest := MoveEntries(k, entries);
    if r.Ok? {
      RunSucceeds(k, entries, keys, r.value);
    } else {
      RunFails(k, entries, keys, rest);
    }
  }
}
