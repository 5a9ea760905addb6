# A verified model of the control plane and the VM lifecycle

The repository runs a mobile-proxy control plane: an operator tool that opens and closes
acceptance VMs through a durable ledger, a SQLite store that exchanges whole control-plane
snapshots, and an importer for the older JSON state. This project models the parts of it whose
correctness spans many steps and proves what they promise, for every input and every run.

`dafny verify dfyconfig.toml` checks everything.

## What is modelled

**The durable ledger and the session protocol.** `Lifecycle` holds the provider-neutral rules
(planning, authorising a deletion, recovering a dispatched create). `Ledger` holds the records,
the envelope check, the seven transitions and the reconstruction that every read performs;
`LedgerTheory` says which histories it accepts and how stable its answers are. `BindingStore` is
the store that reads, appends, reads again and verifies; `BindingStoreTheory` shows that what it
writes is what the reader accepts. `Session` is the open/close protocol as a step relation: any
number of processes share one ledger and one provider, every external action is one step, a
process may stop before any action, and an append or a provider call may fail after it took
effect. Machines may appear late or never, vanish, or change their name and specification;
foreign machines and records of the other namespace may appear at any time, and record ids need
not grow. `SessionTheory` proves safety over all runs, `SessionProgress` what a process left alone
achieves, `SessionEndings` which sessions can still be brought to an end, and `SessionDecisions`
that every listing, read and call leads where machines and ledger themselves call for, so that
what a session reports is true.

**Snapshot compare-and-swap.** `SnapshotTables` is the database schema as maps with live
constraints; `RowChanges` the eight ordered loops that turn one relational state into another;
`Snapshot` the snapshots, their validation and their relational form; `SnapshotRebuild` the
canonical form they are rebuilt to; `SnapshotSwap` the operation and its exact outcome.

**Legacy state normalisation.** `LegacyCanonical`, `LegacyClaims` and `LegacyOrder` hold the
theory of the passes, `LegacyImport` the class whose methods rewrite the four collections in
place, and the loop that consumes the result.

**Four smaller algorithms.** `CycleFinder` (depth-first search for a module cycle),
`OwnershipTags` (tag printer and parser), `Pagination` (cursor loop), `ReleaseIntegrity` (release
manifest). `Sorting`, `Counting` and `Wrappers` are shared helpers.

## What the proofs found

* A snapshot exchange in which some command is re-issued with nothing but its issue time changed
  is always refused, although both snapshots are valid: rewriting the result row cascades to a
  claim row that no loop restores (`SnapshotSwap.ClaimsAreLostIffReissued`; an input for every
  command is `SnapshotSwap.ReissueIsRefused`). All other exchanges of validated snapshots succeed.
* In the first pass over a legacy state, which files every stored result under its canonical key,
  the verdict can depend on the iteration order of a hash map. It does exactly when the entries
  are consistent, some entry occupies the canonical key of another, and none do so in a circle
  (`LegacyCanonical.OrderMattersIff`; an input is `LegacyCanonical.OrderCanMatter`). Entries that
  occupy each other's keys in a circle are refused in every order, although they do not conflict
  (`LegacyCanonical.SwappedEntriesAreRefused`).
* A session that stops between the durable dispatch of its create and the call itself, or whose
  create is lost on the way, can never be closed again: no process may create a second time, and
  there is nothing to recover (`SessionEndings.ClosableIff`; a run is
  `SessionEndings.DispatchWithoutCall`).
* A session whose machine disappears before its delete was dispatched can never be closed either,
  because closing first insists on seeing the machine (`SessionEndings.ClosableIff`; a run is
  `SessionEndings.BoundMachineVanishes`).
* Schema integrity alone does not keep the eight loops from failing; validated snapshots have the
  extra property they need (`SnapshotSwap.IntegrityAloneIsNotEnough`, `SnapshotSwap.SharedPending`).

## Reading the model

* Digests and JSON encodings are function-valued parameters (`Codec`); `Sound` says that they
  are injective, never empty, and produce JSON. Nothing is assumed about them otherwise, and
  `CodecWitness` constructs encodings that have all of these properties.
* Loops over hash maps and ordered maps take their keys in an arbitrary order, so every result
  holds for the order the source uses and for any other.
* `Generation` and record ids are 64-bit; the successor of a generation is partial.
* What a remote call did is a parameter: an `Io` value for a store operation, a `Step` for a
  session.

## Model

| member | source | states |
|---|---|---|
| `Lifecycle.CreatePlannedIffUnclaimed` | crates/proxy-core/src/provider_lifecycle.rs:346-384 | a create is planned exactly when no listed machine claims the intent or has the desired name |
| `Lifecycle.PlanRefusals` | crates/proxy-core/src/provider_lifecycle.rs:346-384 | why no create is planned, cause by cause |
| `Lifecycle.PlanBoundIff` | crates/proxy-core/src/provider_lifecycle.rs:386-408 | when a bound plan is made at all, and when it changes nothing |
| `Lifecycle.AuthorizedTargetIsBoundVm` | crates/proxy-core/src/provider_lifecycle.rs:410-467 | a mutation is authorised only for a listed machine with the bound id and exactly the bound ownership |
| `Lifecycle.AuthorizedIff` | crates/proxy-core/src/provider_lifecycle.rs:410-467 | authorised exactly when one place of the listing claims the intent, and it is the bound machine with exactly the bound ownership |
| `Lifecycle.AuthorizeRefusals` | crates/proxy-core/src/provider_lifecycle.rs:410-467 | why a mutation is not authorised, cause by cause |
| `Lifecycle.NotFoundIffAbsent` | crates/proxy-core/src/provider_lifecycle.rs:410-467 | "not found" is reported exactly when the bound id is unlisted and nothing listed claims the intent |
| `Lifecycle.RecoveredVmMatchesFence` | crates/proxy-core/src/provider_create_dispatch.rs:133-192 | recovery binds only a listed machine with the fence's exact ownership, generation and specification |
| `Lifecycle.RecoveryIff` | crates/proxy-core/src/provider_create_dispatch.rs:133-192 | the exact conditions for finding the created machine and for going on waiting |
| `Lifecycle.OwnedIff` | crates/proxy-core/src/provider_lifecycle.rs:104-128 | a machine is owned by an intent exactly when it bears the stamp of the intent, of some generation |
| `Ledger.ReconstructLedger` | apps/operator-cli/src/github_vm_binding_store.rs:613-650 | the filter, sort and replay loops compute the reconstruction function, errors included |
| `Ledger.SelectRecords` | apps/operator-cli/src/github_vm_binding_store.rs:625-631 | the filtering loop keeps the intent's records in order, or reports the first envelope error |
| `Ledger.ReplayRecords` | apps/operator-cli/src/github_vm_binding_store.rs:634-649 | the replay loop with its set of seen ids folds the transition function over the chain |
| `LedgerTheory.ReplayDeterminesWord` | apps/operator-cli/src/github_vm_binding_store.rs:652-769 | the phase reached determines the word of transitions that led to it |
| `LedgerTheory.AcceptedWordsAreLifePrefixes` | apps/operator-cli/src/github_vm_binding_store.rs:652-769 | an accepted chain spells a prefix of PrepareCreate DispatchCreate Bind Replace* PrepareDelete DispatchDelete Clear, and its generation is INITIAL plus the number of Replace records |
| `LedgerTheory.LifePrefixesAreAccepted` | apps/operator-cli/src/github_vm_binding_store.rs:613-769 | conversely, for every candidate and namespace every such prefix is the word of a ledger that reconstructs |
| `LedgerTheory.AcceptedRecordsAdvance` | apps/operator-cli/src/github_vm_binding_store.rs:652-769 | every accepted record raises (rank, generation); Terminal accepts nothing |
| `LedgerTheory.AcceptedRecordsNameMachines` | apps/operator-cli/src/github_vm_binding_store.rs:652-769 | which records name an expected and a new machine, that the expected one is the one held, and that a replacement is another machine |
| `LedgerTheory.PermutationInvariant` | apps/operator-cli/src/github_vm_binding_store.rs:613-650 | any permutation of a reconstructible list gives the same state |
| `LedgerTheory.GrowthExtendsChain` | apps/operator-cli/src/github_vm_binding_store.rs:613-650 | if a list and one containing all its records both reconstruct, the smaller chain is a prefix of the larger, with no assumption on ids |
| `LedgerTheory.PositionsHaveDistinctIds` | apps/operator-cli/src/github_vm_binding_store.rs:634-642 | in a reconstructible list no two positions of the intent share an id |
| `LedgerTheory.RejectionIsPermanent` | apps/operator-cli/src/github_vm_binding_store.rs:613-650 | if ids grow in append order, a rejected history stays rejected after every further append |
| `LedgerTheory.RefusalsByCause` | apps/operator-cli/src/github_vm_binding_store.rs:613-650 | why a reconstruction fails, cause by cause; a linked chain is never called forked |
| `LedgerTheory.ShaIff` | apps/operator-cli/src/github_vm_binding_store.rs:771-780 | a candidate is forty lower-case hexadecimal digits |
| `LedgerTheory.UuidIff` | apps/operator-cli/src/github_vm_binding_store.rs:782-789 | a provider id passes exactly when it is the rendering of thirty-two lower-case hexadecimal digits |
| `LedgerTheory.NamespaceNonInterference` | apps/operator-cli/src/github_vm_binding_store.rs:579-650 | an intent's state is the state of its own records; one envelope-invalid record makes every intent refuse |
| `BindingStore.Store.CurrentState` | apps/operator-cli/src/github_vm_binding_store.rs:318-325 | a read is the reconstruction of the listed records, or the intent or transport error |
| `BindingStore.Store.AppendTransition` | apps/operator-cli/src/github_vm_binding_store.rs:334-365 | append, read back and verify: the result and the new record list for every outcome of the three calls |
| `BindingStore.Store.PrepareCreate` | apps/operator-cli/src/github_vm_binding_store.rs:367-390 | result and new record list of the operation; a refusal appends nothing |
| `BindingStore.Store.MarkCreateDispatched` | apps/operator-cli/src/github_vm_binding_store.rs:392-419 | result and new record list of the operation, with its three kinds of refusal |
| `BindingStore.Store.PrepareDelete` | apps/operator-cli/src/github_vm_binding_store.rs:421-444 | result and new record list of the operation, argument checks first |
| `BindingStore.Store.MarkDeleteDispatched` | apps/operator-cli/src/github_vm_binding_store.rs:446-471 | result and new record list of the operation, argument checks first |
| `BindingStore.Store.Load` | apps/operator-cli/src/github_vm_binding_store.rs:477-491 | a binding exactly in Bound, none exactly in Empty, and the error of every other case |
| `BindingStore.Store.CompareAndSwap` | apps/operator-cli/src/github_vm_binding_store.rs:493-576 | result and new record list for bind, replace and clear |
| `BindingStoreTheory.PlannedWriteIsAccepted` | apps/operator-cli/src/github_vm_binding_store.rs:334-576 | every record an admitted operation writes is accepted by the reader and yields the promised phase |
| `BindingStoreTheory.AcceptedPayloadIsPlanned` | apps/operator-cli/src/github_vm_binding_store.rs:652-769 | conversely, every payload the reader accepts is what some admitted operation would have written |
| `BindingStoreTheory.EnvelopeIffWritten` | apps/operator-cli/src/github_vm_binding_store.rs:584-611 | the envelope check lets in exactly the records the store can write for the candidate |
| `BindingStoreTheory.ReadableRecordsAreWritten` | apps/operator-cli/src/github_vm_binding_store.rs:613-650 | every record of a ledger that can be read is one the store could have written |
| `BindingStoreTheory.WrittenRecordFields` | apps/operator-cli/src/github_vm_binding_store.rs:343-359 | the fields of a written record, spelled out |
| `BindingStoreTheory.AdmittedIff` | apps/operator-cli/src/github_vm_binding_store.rs:367-576 | an operation is admitted exactly in the phase it starts from |
| `BindingStoreTheory.RefusalsMean` | apps/operator-cli/src/github_vm_binding_store.rs:367-576 | when each refusal is given, error by error |
| `BindingStoreTheory.ArgumentsIff` | apps/operator-cli/src/github_vm_binding_store.rs:306-316 | which arguments pass, and which error the others get |
| `BindingStoreTheory.SuccessIsVerified` | apps/operator-cli/src/github_vm_binding_store.rs:334-365 | whatever the calls do, success means the record was read back at the head with the promised phase; failed verification and transport errors only when they happened |
| `BindingStoreTheory.SerialisedOperation` | apps/operator-cli/src/github_vm_binding_store.rs:334-576 | one operation on a healthy ledger: refused means nothing appended, admitted means verified success; the other namespace's state is unchanged |
| `BindingStoreTheory.SerialisedRunsNeverFork` | apps/operator-cli/src/github_vm_binding_store.rs:334-576 | over all sequences of operations of both namespaces, verification failures and forks are unreachable |
| `BindingStoreTheory.NamespaceRunsAreIsolated` | apps/operator-cli/src/github_vm_binding_store.rs:579-650 | any number of operations of one namespace leave the other's state unchanged |
| `SessionTheory.FencedUnique` | apps/operator-cli/src/github_vm_binding_store.rs:356-364 | only one position of a ledger can ever have been read back as the create fence, whatever ids records were given |
| `SessionTheory.FencedPhase` | apps/operator-cli/src/item20_session_lifecycle.rs:318-325 | once a create was fenced, a readable ledger never shows an earlier phase again |
| `SessionTheory.StepPreserves` | apps/operator-cli/src/item20_session_lifecycle.rs:169-467 | every step of every process and of the environment keeps the joint invariant |
| `SessionTheory.RunInvariant` | apps/operator-cli/src/item20_session_lifecycle.rs:169-467 | the joint invariant holds in every world of every run |
| `SessionTheory.AtMostOneCreate` | apps/operator-cli/src/item20_session_lifecycle.rs:300-336 | the provider create call is made at most once in a whole run, and only by the author of a durable record that was read back as the dispatched create |
| `SessionTheory.DeletesAreFenced` | apps/operator-cli/src/item20_session_lifecycle.rs:369-455 | every provider delete call happens with the DispatchDelete record of that exact binding already durable |
| `SessionTheory.LedgerAndProviderAgree` | apps/operator-cli/src/item20_session_lifecycle.rs:262-455 | at most one machine carries the ownership; none in Empty, CreatePrepared or Terminal; while the ledger names a binding, only that machine |
| `SessionTheory.ClearedMeansGone` | apps/operator-cli/src/item20_session_lifecycle.rs:412-455 | with a Clear record in the ledger no owned machine exists and no create is outstanding |
| `SessionTheory.ReportedOutcomesHold` | apps/operator-cli/src/item20_session_lifecycle.rs:262-298 | after a close reported a terminal session no owned machine exists ever again; after an open reported a binding no other machine ever carries the ownership |
| `SessionDecisions.ListingsDecide` | apps/operator-cli/src/item20_session_lifecycle.rs:195-455 | over every run, every listing leads exactly where the machines that exist call for, within 20 and 40 attempts; a listing with repeats can only make a process give up |
| `SessionDecisions.ReadsDecide` | apps/operator-cli/src/item20_session_lifecycle.rs:182-297 | over every run, every read leads exactly where the durable phase calls for |
| `SessionDecisions.CallsDecide` | apps/operator-cli/src/item20_session_lifecycle.rs:325-391 | a call that failed ends the process; one that came back is followed by looking for its effect |
| `SessionDecisions.OpenedIsTrue` | apps/operator-cli/src/item20_session_lifecycle.rs:195-221 | a session reported open has its machine there, exactly owned and with the wanted specification, or was just read back as bound |
| `SessionDecisions.ClosedIsTrue` | apps/operator-cli/src/item20_session_lifecycle.rs:262-298 | what a close reports is true of ledger, machines and create calls at that moment |
| `SessionDecisions.AttemptsBounded` | apps/operator-cli/src/item20_session_lifecycle.rs:351-366 | recovery never makes more than 20 attempts, confirmation never more than 40 |
| `SessionProgress.StoreOpCompletes` | apps/operator-cli/src/github_vm_binding_store.rs:334-576 | an admitted operation left alone by faults ends verified, from any reachable world |
| `SessionProgress.CanBeOpened` | apps/operator-cli/src/item20_session_lifecycle.rs:169-222 | from any reachable world an open can end with its machine bound: created from an empty or prepared ledger, recovered after a dispatched create whose machine appeared, or found again |
| `SessionProgress.CanBeClosed` | apps/operator-cli/src/item20_session_lifecycle.rs:262-298 | whatever crashed before, a session whose machine is there or whose delete was dispatched can be closed by one more process |
| `SessionProgress.DispatchedCanBeClosed` | apps/operator-cli/src/item20_session_lifecycle.rs:279-283 | one close alone ends a session whose create was dispatched and whose machine appeared |
| `SessionEndings.StuckForever` | apps/operator-cli/src/item20_session_lifecycle.rs:369-410 | with the machine gone and no delete dispatched, no continuation ever dispatches one |
| `SessionEndings.StrandedForever` | apps/operator-cli/src/item20_session_lifecycle.rs:338-367 | with the create dispatched, nothing in flight and no machine to bind, every continuation only waits |
| `SessionEndings.UnboundForever` | apps/operator-cli/src/item20_session_lifecycle.rs:338-367 | with every canonical id used up, no continuation ever binds a machine |
| `SessionEndings.UnreadableForever` | apps/operator-cli/src/github_vm_binding_store.rs:613-650 | once all processes stopped over an unreadable ledger, no continuation makes it readable |
| `SessionEndings.ClosableIff` | apps/operator-cli/src/item20_session_lifecycle.rs:262-455 | in every quiet world of every run, for every phase of the ledger: Terminal can be reached exactly when the ledger is readable and an unused id is left before dispatch, the created machine exists or is in flight after it, the bound machine exists, or its delete was dispatched |
| `SessionEndings.DispatchWithoutCall` | apps/operator-cli/src/item20_session_lifecycle.rs:325-336 | a run that stops between dispatch and create call, after which Terminal is unreachable |
| `SessionEndings.BoundMachineVanishes` | apps/operator-cli/src/item20_session_lifecycle.rs:382-391 | a run whose bound machine vanishes, after which Terminal is unreachable |
| `SnapshotTables.StatementsKeepIntegrity` | crates/control-plane-sqlite/src/lib.rs:46-81 | accepted statements keep every key, uniqueness, reference and check of the schema |
| `RowChanges.DeleteStalePending` | crates/control-plane-sqlite/src/snapshot_compare_and_swap.rs:234-242 | exactly the differing pending rows go and are counted |
| `RowChanges.DeleteStaleClaims` | crates/control-plane-sqlite/src/snapshot_compare_and_swap.rs:243-251 | exactly the differing claim rows go and are counted |
| `RowChanges.DeleteStaleResults` | crates/control-plane-sqlite/src/snapshot_compare_and_swap.rs:252-260 | if no pending row refers to them, the differing result rows go, and their claims with them |
| `RowChanges.DeleteStaleDevices` | crates/control-plane-sqlite/src/snapshot_compare_and_swap.rs:261-266 | exactly the devices missing from the candidate go and are counted |
| `RowChanges.UpsertDevices` | crates/control-plane-sqlite/src/snapshot_compare_and_swap.rs:268-277 | exactly the differing devices are written and counted |
| `RowChanges.InsertResults` | crates/control-plane-sqlite/src/snapshot_compare_and_swap.rs:278-288 | exactly the missing result rows are inserted, without a key or uniqueness violation |
| `RowChanges.InsertClaims` | crates/control-plane-sqlite/src/snapshot_compare_and_swap.rs:289-299 | exactly the differing claim rows are inserted, without a key or reference violation |
| `RowChanges.InsertPendings` | crates/control-plane-sqlite/src/snapshot_compare_and_swap.rs:300-311 | exactly the differing pending rows are inserted, without a key, uniqueness or reference violation |
| `RowChanges.ApplyRowChanges` | crates/control-plane-sqlite/src/snapshot_compare_and_swap.rs:227-314 | for compatible states no statement fails, every counter is the number of rows gained or lost, and the outcome is the candidate less the cascaded claims |
| `RowChanges.CountersBalance` | crates/control-plane-sqlite/src/snapshot_compare_and_swap.rs:10-20 | rows before, plus inserted, less deleted, are rows after, table by table; from empty tables everything is inserted |
| `Snapshot.Validate` | crates/control-plane-sqlite/src/snapshot_validation.rs:14-157 | validation succeeds exactly on valid snapshots, and a violation it reports is one the snapshot has |
| `Snapshot.ValidIffNoViolation` | crates/control-plane-sqlite/src/snapshot_error.rs:41-66 | validity is the absence of every violation the validator can report |
| `Snapshot.ValidateDevices` | crates/control-plane-sqlite/src/snapshot_validation.rs:28-37 | succeeds exactly when every key is non-empty and its record's own id |
| `Snapshot.ValidateResults` | crates/control-plane-sqlite/src/snapshot_validation.rs:39-67 | success leaves exact indexes by scope and by command and distinct records; a reported violation is true of the replay |
| `Snapshot.ValidateClaims` | crates/control-plane-sqlite/src/snapshot_validation.rs:69-94 | succeeds exactly when every fingerprint is the recomputed one |
| `Snapshot.ValidatePending` | crates/control-plane-sqlite/src/snapshot_validation.rs:96-130 | success means every queued command is on its device, distinct, within capacity and equal to its replay result; a reported violation is true of the queues |
| `Snapshot.Materialize` | crates/control-plane-sqlite/src/snapshot_compare_and_swap.rs:105-153 | the insertion loops build the relational form; for repeated pending commands, one row per id, of a command with that id |
| `Snapshot.RowSource` | crates/control-plane-sqlite/src/snapshot.rs:81-125 | every scope in the tables comes from one replay record whose command determines result and claim row |
| `Snapshot.RecordsCompare` | crates/application/src/command_issue.rs:67-87 | which fields scope and fingerprint tell apart |
| `Snapshot.Capacities` | crates/control-plane-sqlite/src/snapshot_validation.rs:18-26 | the capacities, in numbers, and what they count |
| `SnapshotRebuild.TablesDetermineSnapshot` | crates/control-plane-sqlite/src/snapshot_compare_and_swap.rs:88-94 | valid snapshots with equal tables have the same devices, queued commands and replay records |
| `SnapshotRebuild.TablesDetermineRebuilt` | crates/control-plane-sqlite/src/snapshot_validation.rs:132-156 | tables are equal exactly when the rebuilt snapshots are |
| `SnapshotRebuild.RebuiltHasSameTables` | crates/control-plane-sqlite/src/snapshot_validation.rs:132-156 | rebuilding sorts the replay records and drops empty queues, keeps validity and changes no table |
| `SnapshotRebuild.RebuiltIsCanonical` | crates/control-plane-sqlite/src/snapshot_validation.rs:132-156 | replay records ascend strictly by scope text, and exactly the queues that hold something remain |
| `SnapshotRebuild.FromParts` | crates/control-plane-sqlite/src/snapshot.rs:81-134 | succeeds exactly on valid parts, with their rebuilt snapshot |
| `SnapshotSwap.ValidSnapshotsAreIntact` | crates/control-plane-sqlite/src/snapshot_validation.rs:14-157 | the relational form of every valid snapshot satisfies the schema |
| `SnapshotSwap.SharedPending` | crates/control-plane-sqlite/src/snapshot_validation.rs:113-121 | a pending row shared by two valid snapshots has the same result row in both |
| `SnapshotSwap.ValidSnapshotsAreSwappable` | crates/control-plane-sqlite/src/snapshot_compare_and_swap.rs:227-314 | for every pair of valid snapshots the row changes meet no constraint violation |
| `SnapshotSwap.IntegrityAloneIsNotEnough` | crates/control-plane-sqlite/src/lib.rs:69-78 | two states that satisfy the schema between which a deletion is restricted |
| `SnapshotSwap.ClaimsAreLostIffReissued` | crates/control-plane-sqlite/src/snapshot_compare_and_swap.rs:243-299 | a claim is lost to the cascade exactly when some command changes in its issue time alone |
| `SnapshotSwap.ReissueIsRefused` | crates/control-plane-sqlite/src/snapshot_compare_and_swap.rs:252-299 | for every command and every other issue time, two valid snapshots whose exchange is refused |
| `SnapshotSwap.CompareAndSwapSnapshot` | crates/control-plane-sqlite/src/snapshot_compare_and_swap.rs:78-102 | success exactly when both are valid, the tables hold the expected one and nothing is merely re-issued; then the tables hold the candidate and the counters count the rows gained and lost, otherwise the tables are unchanged |
| `LegacyCanonical.Canonicalize` | crates/control-plane-sqlite/src/legacy_json_import.rs:289-306 | success leaves exactly canonical scope to command over the entries and counts the moved keys; the result is that of some order of the map |
| `LegacyCanonical.EveryOrderSucceedsIff` | crates/control-plane-sqlite/src/legacy_json_import.rs:289-306 | every iteration order succeeds exactly when the entries are consistent and none occupies another's canonical key |
| `LegacyCanonical.OrderSucceedsIff` | crates/control-plane-sqlite/src/legacy_json_import.rs:289-306 | an order succeeds exactly when the entries are consistent and every entry in the way of another moves before it |
| `LegacyCanonical.SomeOrderSucceedsIff` | crates/control-plane-sqlite/src/legacy_json_import.rs:289-306 | some order succeeds exactly when the entries are consistent and occupy no circle of keys |
| `LegacyCanonical.OrderMattersIff` | crates/control-plane-sqlite/src/legacy_json_import.rs:289-306 | the exact condition for this pass to accept in one order and refuse in another |
| `LegacyCanonical.SuccessfulOrdersAgree` | crates/control-plane-sqlite/src/legacy_json_import.rs:289-306 | any two iteration orders that succeed end in the same map |
| `LegacyCanonical.OrderCanMatter` | crates/control-plane-sqlite/src/legacy_json_import.rs:294-305 | two entries on which one order succeeds and the other is refused |
| `LegacyCanonical.SwappedEntriesAreRefused` | crates/control-plane-sqlite/src/legacy_json_import.rs:294-305 | two consistent entries under each other's keys, refused in every order |
| `LegacyOrder.Rebuild` | crates/control-plane-sqlite/src/legacy_json_import.rs:382-400 | first occurrences of known keys in their order, then the missing keys sorted, each key once |
| `LegacyOrder.RebuiltIsUnique` | crates/control-plane-sqlite/src/legacy_json_import.rs:382-400 | the rebuilt order is determined by the old order and the keys |
| `LegacyOrder.FirstOccurrencesInOrder` | crates/control-plane-sqlite/src/legacy_json_import.rs:385-389 | surviving keys are in the order in which they first appeared |
| `LegacyOrder.EvictOne` | crates/control-plane-sqlite/src/legacy_json_import.rs:406-420 | removing the first evictable key one at a time is removing the first n of them |
| `LegacyOrder.EvictFacts` | crates/control-plane-sqlite/src/legacy_json_import.rs:402-435 | eviction drops only evictable keys, keeps all pinned ones, repeats nothing and removes exactly n when it can |
| `LegacyOrder.EvictKeepsOrder` | crates/control-plane-sqlite/src/legacy_json_import.rs:402-435 | the surviving keys keep their relative order |
| `LegacyOrder.EvictsOldest` | crates/control-plane-sqlite/src/legacy_json_import.rs:402-435 | an evicted key stood before every evictable key that stays |
| `LegacyClaims.MovedGrows` | crates/control-plane-sqlite/src/legacy_json_import.rs:343-355 | one iteration moves one claim to its legacy key and disturbs no other |
| `LegacyClaims.MoveRunIsClean` | crates/control-plane-sqlite/src/legacy_json_import.rs:343-355 | with disjoint key spaces every order moves all claims alike and drops exactly the canonical ones |
| `LegacyClaims.EvictedTable` | crates/control-plane-sqlite/src/legacy_json_import.rs:421-431 | evicting a result with its claim leaves exactly the claims of the rest |
| `LegacyClaims.SuccessMeansFit` | crates/control-plane-sqlite/src/legacy_json_import.rs:318-359 | a run that got through started from claims that all fit |
| `LegacyClaims.LegacyKeyReadsBack` | crates/control-plane-sqlite/src/legacy_json_import.rs:469-471 | a legacy key is device, colon, idempotency key, and reads back for devices without a colon |
| `LegacyClaims.PlainDevicesAreInjective` | crates/control-plane-sqlite/src/legacy_json_import.rs:469-471 | for devices without a colon, distinct results have distinct legacy keys |
| `LegacyImport.NormalFormIsUnique` | crates/control-plane-sqlite/src/legacy_json_import.rs:285-361 | any two successful runs end in the same results, claims and order |
| `LegacyImport.NormalFormIsSettled` | crates/control-plane-sqlite/src/legacy_json_import.rs:285-361 | a normal form is canonically keyed, complete for the queues, exactly claimed, exactly ordered and within the cap |
| `LegacyImport.LegacyCommands.CanonicalizeResults` | crates/control-plane-sqlite/src/legacy_json_import.rs:289-306 | the results become canonical, the counter counts the misplaced keys, canonical results are left alone |
| `LegacyImport.LegacyCommands.EnsureLegacyClaim` | crates/control-plane-sqlite/src/legacy_json_import.rs:363-380 | the claim is found, added and counted, or in conflict |
| `LegacyImport.LegacyCommands.RecoverQueued` | crates/control-plane-sqlite/src/legacy_json_import.rs:308-336 | every queued command has its result and claim, no stored claim is changed, and the counters account for every addition |
| `LegacyImport.LegacyCommands.MoveClaims` | crates/control-plane-sqlite/src/legacy_json_import.rs:338-355 | the claims are moved in some order of the results, or some order meets a conflict; with disjoint key spaces all claims end under legacy keys and the counter is the number of canonical ones |
| `LegacyImport.LegacyCommands.RebuildOrder` | crates/control-plane-sqlite/src/legacy_json_import.rs:382-400 | the order is the rebuilt one, and the flag says whether it changed |
| `LegacyImport.LegacyCommands.TrimResults` | crates/control-plane-sqlite/src/legacy_json_import.rs:402-435 | removes the first (length - 1000) non-pending keys with their results, and fails exactly when more than 1000 results are pending |
| `LegacyImport.LegacyCommands.ValidateLegacyClaims` | crates/control-plane-sqlite/src/legacy_json_import.rs:437-456 | succeeds exactly when the claims are legacy scope to command id over the results |
| `LegacyImport.LegacyCommands.NormalizeCommands` | crates/control-plane-sqlite/src/legacy_json_import.rs:285-361 | success gives the normal form and reports exact statistics; acceptable states always succeed; with disjoint key spaces only states whose claims fit and whose pending results are within the cap succeed; a settled state is left unchanged with nothing to report |
| `LegacyImport.NormalizeOrdinaryFile` | crates/control-plane-sqlite/src/legacy_json_import.rs:285-361 | the ordinary one-command file, spelled out, is accepted and left as it is |
| `LegacyImport.PendingIff` | crates/control-plane-sqlite/src/legacy_json_import.rs:458-463 | a command is pending exactly when some place in some queue holds its id |
| `LegacyImport.ConsumeResults` | crates/control-plane-sqlite/src/legacy_json_import.rs:220-231 | the consuming loop succeeds exactly when the order lists every result key once |
| `LegacyImport.ImportedParts` | crates/control-plane-sqlite/src/legacy_json_import.rs:206-237 | the parts passed on have distinct scopes, recomputed fingerprints and an equal record for every queued command |
| `LegacyImport.ImportValidIff` | crates/control-plane-sqlite/src/legacy_json_import.rs:233-236 | after normalisation, validity of the snapshot comes down to identities and capacities |
| `LegacyImport.ParseLegacy` | crates/control-plane-sqlite/src/legacy_json_import.rs:206-237 | never reports an inconsistent replay order; after normalisation it succeeds exactly when identities and capacities check out, with the rebuilt snapshot of the normalised state |
| `CycleFinder.Finder.Visit` | scripts/check_module_boundaries.py:47-62 | the recursion ends; it returns a real cycle or leaves the path unchanged and the node visited |
| `CycleFinder.FinishedGraphsAreAcyclic` | scripts/check_module_boundaries.py:59-62 | a graph whose nodes all have a place in a finish order has no cycle |
| `CycleFinder.AcyclicIffFinishOrder` | scripts/check_module_boundaries.py:42-68 | a graph is acyclic exactly when its nodes have a finish order |
| `CycleFinder.FindCycle` | scripts/check_module_boundaries.py:42-68 | ends on every finite graph; what it returns is a closed walk along edges that repeats no node but its ends; it returns none exactly when there is no cycle |
| `CycleFinder.CycleIff` | scripts/check_module_boundaries.py:47-57 | what a cycle is in terms of the graph itself |
| `OwnershipTags.DecimalRoundTrip` | apps/operator-cli/src/vultr_lifecycle.rs:286-290 | every 64-bit number survives printing and parsing |
| `OwnershipTags.ParserAccepts` | apps/operator-cli/src/vultr_lifecycle.rs:286-290 | numbers are taken also with a plus sign or a leading zero, and not beyond 64 bits |
| `OwnershipTags.ParserRefuses` | apps/operator-cli/src/vultr_lifecycle.rs:286-290 | no empty text, no lone sign, nothing but digits |
| `OwnershipTags.EncodedTags` | apps/operator-cli/src/vultr_lifecycle.rs:250-258 | the five tags, spelled out |
| `OwnershipTags.DecodeClassifies` | apps/operator-cli/src/vultr_lifecycle.rs:260-314 | an error exactly for a repeated label, Missing exactly for no label, Conflicting for every proper subset, Exact for exactly the metadata the tags describe |
| `OwnershipTags.OwnershipRoundTrip` | apps/operator-cli/src/vultr_lifecycle.rs:250-314 | any arrangement of the encoded tags among unrelated ones decodes to the encoded metadata |
| `Pagination.EndingChainsDoNotLoop` | apps/operator-cli/src/vultr_client.rs:165-174 | a cursor chain that ends never comes back to a cursor, so the repeated-cursor check refuses no complete listing |
| `Pagination.ListInstances` | apps/operator-cli/src/vultr_client.rs:135-178 | succeeds exactly when the chain ends within twenty pages that all decode, and then with every instance on them, decoded and in order; a refusal names what was wrong with the page it came to |
| `Pagination.DecodeAllMeans` | apps/operator-cli/src/vultr_client.rs:152-158 | a page decodes to its instances one by one, and fails exactly when one of them does |
| `ReleaseIntegrity.CollectFiles` | apps/operator-cli/src/release_integrity.rs:80-102 | the recursive walk pushes every file below a directory but the root manifest |
| `ReleaseIntegrity.PathsAreDistinct` | apps/operator-cli/src/release_integrity.rs:80-102 | no two files of a valid tree share a path |
| `ReleaseIntegrity.ReleasedIff` | apps/operator-cli/src/release_integrity.rs:80-102 | the released files are exactly those some path leads to, at any depth, but for the root manifest |
| `ReleaseIntegrity.EntriesDescribeFiles` | apps/operator-cli/src/release_integrity.rs:60-78 | the entries are the released files by ascending path, each with its digest and its size |
| `ReleaseIntegrity.VerifyAcceptsExactlyTheRelease` | apps/operator-cli/src/release_integrity.rs:26-78 | after writing, the tree verifies; a tree with the same manifest verifies exactly when it holds the same files with the same bytes |
| `ReleaseIntegrity.VerifiesIff` | apps/operator-cli/src/release_integrity.rs:40-58 | verification asks for exactly the manifest the tree would be given now, version, algorithm and domain included |

## Left out

- SessionTheory.AtMostOneCreate: reads of the ledger and listings of the provider are atomic and complete; a stale or partial listing of either is not modelled.
- SessionTheory.StepPreserves: the session functions are a step relation over shared state, not methods on a mutable store, so that processes can interleave; sleeps and the label that says how a session was opened are dropped, the attempt bounds are kept.
- SessionEndings.ClosableIff: needs six unused record ids above all recorded ones, as the backend always has.
- LedgerTheory.LifePrefixesAreAccepted: needs the number of replacements and the length of the word to fit 64-bit counters, as every real ledger does.
- Snapshot.Validate: which of several violations is reported first is left open, since it depends on row order; the row lists are the ones a snapshot produces, so identity mismatches between a row and its own command, duplicate devices and non-contiguous positions cannot occur.
- Snapshot.Materialize: for repeated pending commands, which no validated snapshot has, it is left open whose row is kept.
- SnapshotSwap.CompareAndSwapSnapshot: database and disk failures are left out; commit and rollback are atomic.
- LegacyImport.LegacyCommands.NormalizeCommands: which error an unacceptable state is refused with is left open, since it depends on map order; with overlapping key spaces the two claim counters are only balanced, not given.
- LegacyImport.ParseLegacy: JSON decoding and the classification of legacy fingerprints are not modelled.
- Pagination.ListInstances: the provider answers the same cursor the same way during one listing.
- ReleaseIntegrity.VerifyAcceptsExactlyTheRelease: names contain no separators; links, special files, unreadable files and lossy name conversion are not modelled.
- The page bound of the ledger listing and its HTTP client.
- The Item 19 and production flows that drive the same store.
- Loading and replacing whole snapshots, migrations, WAL settings and busy timeouts of the SQLite store.
- HTTP, adb, gcloud, shell generation, reverse tunnels and release packaging: input and output around tools.
- Governance and evidence scripts other than the cycle search: each is settled by one branch.
