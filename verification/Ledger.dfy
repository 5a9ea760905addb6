/**
  The durable acceptance-VM ledger of apps/operator-cli/src/github_vm_binding_store.rs:
  records, the envelope check, the transition function and the reconstruction that
  every read performs on the complete record list.
 */
module Ledger {
  import opened Wrappers
  import opened Lifecycle
  import opened Sorting

  const DEPLOYMENT_TASK := "mobile-proxy:acceptance-vm-binding"
  const DEPLOYMENT_ENVIRONMENT := "acceptance-vm-binding-state"
  const LEDGER_FORMAT_VERSION: U64 := 2

  datatype Namespace = Item19 | Item20

  function IntentId(namespace: Namespace, sha: string): string {
    match namespace
    case Item19 => "candidate:" + sha
    case Item20 => "item20:candidate:" + sha
  }

  function IntentOf(namespace: Namespace, sha: string): OwnershipIntent {
    OwnershipIntent(Acceptance, IntentId(namespace, sha))
  }

  datatype Transition =
    | PrepareCreate
    | DispatchCreate
    | Bind
    | Replace
    | PrepareDelete
    | DispatchDelete
    | Clear

  datatype BindingPayload = BindingPayload(providerId: string, generation: U64)

  datatype Payload = Payload(
    formatVersion: U64,
    project: string,
    managedBy: string,
    candidateSha: string,
    scope: LifecycleScope,
    intentId: string,
    predecessor: Option<U64>,
    transition: Transition,
    generation: U64,
    expected: Option<BindingPayload>,
    replacement: Option<BindingPayload>)

  datatype Record = Record(
    id: U64,
    sha: string,
    gitRef: string,
    task: string,
    environment: string,
    payload: Payload)

  datatype Phase =
    | Empty
    | CreatePrepared(generation: Generation)
    | CreateDispatched(generation: Generation)
    | Bound(binding: VmBinding)
    | DeletePrepared(binding: VmBinding)
    | DeleteDispatched(binding: VmBinding)
    | Terminal(lastGeneration: Generation)

  datatype LedgerState = LedgerState(head: Option<U64>, phase: Phase)

  datatype StoreError =
    | InvalidCandidateSha
    | InvalidOwnershipIntent
    | InvalidProviderUuid
    | InvalidLedgerRecord
    | ForkedLedger
    | CompareAndSwapConflict
    | TerminalIntentReuse
    | OperationInProgress
    | CreateAlreadyDispatched
    | DeleteAlreadyDispatched
    | InvalidTransition
    | HttpTransport
    | WriteVerificationFailed

  // ---------------------------------------------------------------- field checks

  predicate LowerHex(c: char) {
    '0' <= c <= '9' || 'a' <= c <= 'f'
  }

  predicate ValidSha(sha: string) {
    |sha| == 40 && forall i | 0 <= i < |sha| :: LowerHex(sha[i])
  }

  /** A UUID text that equals its own canonical rendering: lower case, hyphenated. */
  predicate CanonicalUuid(s: string) {
    && |s| == 36
    && forall i | 0 <= i < 36 ::
         if i == 8 || i == 13 || i == 18 || i == 23 then s[i] == '-' else LowerHex(s[i])
  }

  predicate AllowedIntentId(sha: string, id: string) {
    id == IntentId(Item19, sha) || id == IntentId(Item20, sha)
  }

  function CheckBindingPayload(payload: Option<BindingPayload>): Result<(), StoreError> {
    if payload.None? then Ok(())
    else if !CanonicalUuid(payload.value.providerId) then Err(InvalidProviderUuid)
    else if payload.value.generation == 0 then Err(InvalidLedgerRecord)
    else Ok(())
  }

  function CheckEnvelope(record: Record, sha: string): Result<(), StoreError> {
    var p := record.payload;
    if || record.sha != sha
       || record.gitRef != sha
       || record.task != DEPLOYMENT_TASK
       || record.environment != DEPLOYMENT_ENVIRONMENT
       || p.formatVersion != LEDGER_FORMAT_VERSION
       || p.project != OWNERSHIP_PROJECT
       || p.managedBy != OWNERSHIP_MANAGER
       || p.candidateSha != sha
       || p.scope != Acceptance
       || !AllowedIntentId(sha, p.intentId)
    then Err(InvalidLedgerRecord)
    else if p.generation == 0 then Err(InvalidLedgerRecord)
    else
      var _ :- CheckBindingPayload(p.expected);
      CheckBindingPayload(p.replacement)
  }

  // ---------------------------------------------------------------- the transition function

  function ToBinding(payload: Option<BindingPayload>, intent: OwnershipIntent): Result<Option<VmBinding>, StoreError> {
    var _ :- CheckBindingPayload(payload);
    if payload.None? then Ok(None)
    else Ok(Some(VmBinding(intent, payload.value.providerId, payload.value.generation)))
  }

  function ApplyRecord(phase: Phase, payload: Payload, intent: OwnershipIntent): Result<Phase, StoreError> {
    if payload.generation == 0 then Err(InvalidLedgerRecord)
    else
      var expected :- ToBinding(payload.expected, intent);
      var replacement :- ToBinding(payload.replacement, intent);
      ApplyTransition(phase, payload.transition, payload.generation, expected, replacement)
  }

  function ApplyTransition(
    phase: Phase,
    transition: Transition,
    generation: Generation,
    expected: Option<VmBinding>,
    replacement: Option<VmBinding>): Result<Phase, StoreError>
  {
    match transition
    case PrepareCreate =>
      if !phase.Empty? || generation != INITIAL || expected.Some? || replacement.Some? then Err(InvalidTransition)
      else Ok(CreatePrepared(generation))
    case DispatchCreate =>
      if phase == CreatePrepared(generation) && expected.None? && replacement.None? then
        Ok(CreateDispatched(generation))
      else Err(InvalidTransition)
    case Bind =>
      if phase == CreateDispatched(generation) && expected.None?
         && replacement.Some? && replacement.value.generation == generation
      then Ok(Bound(replacement.value))
      else Err(InvalidTransition)
    case Replace =>
      if !phase.Bound? || expected.None? || replacement.None? then Err(InvalidTransition)
      else
        var next := NextGeneration(phase.binding.generation);
        if || next.None?
           || expected.value != phase.binding
           || replacement.value.intent != phase.binding.intent
           || replacement.value.providerId == phase.binding.providerId
           || replacement.value.generation != next.value
           || generation != next.value
        then Err(InvalidTransition)
        else Ok(Bound(replacement.value))
    case PrepareDelete =>
      if phase.Bound? && expected == Some(phase.binding) && generation == phase.binding.generation && replacement.None?
      then Ok(DeletePrepared(phase.binding))
      else Err(InvalidTransition)
    case DispatchDelete =>
      if phase.DeletePrepared? && expected == Some(phase.binding)
         && generation == phase.binding.generation && replacement.None?
      then Ok(DeleteDispatched(phase.binding))
      else Err(InvalidTransition)
    case Clear =>
      if phase.DeleteDispatched? && expected == Some(phase.binding)
         && generation == phase.binding.generation && replacement.None?
      then Ok(Terminal(phase.binding.generation))
      else Err(InvalidTransition)
  }

  // ---------------------------------------------------------------- reconstruction

  const INITIAL_STATE := LedgerState(None, Empty)

  /** Envelope-checks every record and keeps those of one intent, in list order. */
  function Select(records: seq<Record>, sha: string, intentId: string): Result<seq<Record>, StoreError> {
    if records == [] then Ok([])
    else
      var n := |records| - 1;
      var selected :- Select(records[..n], sha, intentId);
      var _ :- CheckEnvelope(records[n], sha);
      if records[n].payload.intentId == intentId then Ok(selected + [records[n]]) else Ok(selected)
  }

  predicate IdLe(a: Record, b: Record) {
    a.id <= b.id
  }

  predicate SameId(a: Record, b: Record) {
    a.id == b.id
  }

  function SortById(records: seq<Record>): seq<Record> {
    Sort(records, IdLe)
  }

  function Ids(records: seq<Record>): set<U64> {
    set i | 0 <= i < |records| :: records[i].id
  }

  /** One iteration of the replay loop, given the ids already seen. */
  function ReplayStep(state: LedgerState, seen: set<U64>, r: Record, intent: OwnershipIntent)
    : Result<LedgerState, StoreError>
  {
    if r.id in seen then Err(ForkedLedger)
    else if r.payload.predecessor != state.head then Err(ForkedLedger)
    else
      var phase :- ApplyRecord(state.phase, r.payload, intent);
      Ok(LedgerState(Some(r.id), phase))
  }

  function Replay(chain: seq<Record>, intent: OwnershipIntent): Result<LedgerState, StoreError> {
    if chain == [] then Ok(INITIAL_STATE)
    else
      var n := |chain| - 1;
      var state :- Replay(chain[..n], intent);
      ReplayStep(state, Ids(chain[..n]), chain[n], intent)
  }

  function Reconstruct(records: seq<Record>, sha: string, intent: OwnershipIntent): Result<LedgerState, StoreError> {
    if !ValidSha(sha) then Err(InvalidCandidateSha)
    else if intent.scope != Acceptance || !AllowedIntentId(sha, intent.id) then Err(InvalidOwnershipIntent)
    else
      var selected :- Select(records, sha, intent.id);
      Replay(SortById(selected), intent)
  }

  method ReconstructLedger(records: seq<Record>, sha: string, intent: OwnershipIntent)
    returns (r: Result<LedgerState, StoreError>)
    ensures r == Reconstruct(records, sha, intent)
  {
    if !ValidSha(sha) {
      return Err(InvalidCandidateSha);
    }
    if intent.scope != Acceptance || !AllowedIntentId(sha, intent.id) {
      return Err(InvalidOwnershipIntent);
    }
    var selected := SelectRecords(records, sha, intent.id);
    if selected.Err? {
      return Err(selected.error);
    }
    r := ReplayRecords(SortById(selected.value), intent);
  }

  /** The filtering loop of reconstruct_ledger. */
  method SelectRecords(records: seq<Record>, sha: string, intentId: string)
    returns (r: Result<seq<Record>, StoreError>)
    ensures r == Select(records, sha, intentId)
  {
    var selected := [];
    for i := 0 to |records|
      invariant Select(records[..i], sha, intentId) == Ok(selected)
    {
      assert records[..i + 1][..i] == records[..i];
      var check := CheckEnvelope(records[i], sha);
      if check.Err? {
        SelectFailsEarly(records, sha, intentId, i + 1);
        return Err(check.error);
      }
      if records[i].payload.intentId == intentId {
        selected := selected + [records[i]];
      }
    }
    assert records[..|records|] == records;
    return Ok(selected);
  }

  /** The replay loop of reconstruct_ledger, with its set of ids already seen. */
  method ReplayRecords(chain: seq<Record>, intent: OwnershipIntent)
    returns (r: Result<LedgerState, StoreError>)
    ensures r == Replay(chain, intent)
  {
    var seen := {};
    var state := INITIAL_STATE;
    for i := 0 to |chain|
      invariant seen == Ids(chain[..i])
      invariant Replay(chain[..i], intent) == Ok(state)
    {
      assert chain[..i + 1][..i] == chain[..i];
      var step := ReplayStep(state, seen, chain[i], intent);
      assert Replay(chain[..i + 1], intent) == step;
      if step.Err? {
        ReplayFailsEarly(chain, intent, i + 1);
        return Err(step.error);
      }
      IdsSnoc(chain, i);
      seen := seen + {chain[i].id};
      state := step.value;
    }
    assert chain[..|chain|] == chain;
    return Ok(state);
  }

  lemma IdsSnoc(chain: seq<Record>, i: nat)
    requires i < |chain|
    ensures Ids(chain[..i + 1]) == Ids(chain[..i]) + {chain[i].id}
  {
    forall id | id in Ids(chain[..i + 1]) ensures id in Ids(chain[..i]) + {chain[i].id} {
      var k :| 0 <= k <= i && chain[k].id == id;
      assert k < i ==> chain[..i][k].id == id;
    }
    forall id | id in Ids(chain[..i]) ensures id in Ids(chain[..i + 1]) {
      var k :| 0 <= k < i && chain[k].id == id;
      assert chain[..i + 1][k].id == id;
    }
    assert chain[..i + 1][i].id == chain[i].id;
  }

  /** An error found while filtering a prefix is the error of the whole filter. */
  lemma {:induction false} SelectFailsEarly(records: seq<Record>, sha: string, intentId: string, n: nat)
    requires n <= |records| && Select(records[..n], sha, intentId).Err?
    ensures Select(records, sha, intentId) == Select(records[..n], sha, intentId)
  {
    if n == |records| {
      assert records[..n] == records;
    } else {
      assert records[..|records| - 1][..n] == records[..n];
      SelectFailsEarly(records[..|records| - 1], sha, intentId, n);
    }
  }

  /** An error found while replaying a prefix is the error of the whole replay. */
  lemma {:induction false} ReplayFailsEarly(chain: seq<Record>, intent: OwnershipIntent, n: nat)
    requires n <= |chain| && Replay(chain[..n], intent).Err?
    ensures Replay(chain, intent) == Replay(chain[..n], intent)
  {
    if n == |chain| {
      assert chain[..n] == chain;
    } else {
      assert chain[..|chain| - 1][..n] == chain[..n];
      ReplayFailsEarly(chain[..|chain| - 1], intent, n);
    }
  }
}
