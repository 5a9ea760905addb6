/**
  The durable binding store: every operation reads the whole ledger, checks a guard,
  appends one record, reads again and verifies what it wrote.
 */
module BindingStore {
  import opened Wrappers
  import opened Lifecycle
  import opened Ledger

  /** The mutating operations of the store, with their arguments. */
  datatype StoreOp =
    | PrepareCreateOp
    | DispatchCreateOp(generation: Generation)
    | PrepareDeleteOp(binding: VmBinding)
    | DispatchDeleteOp(binding: VmBinding)
    | SwapOp(expected: Option<VmBinding>, replacement: Option<VmBinding>)

  /** What an admitted operation appends, and the phase it expects to read back. */
  datatype Write = Write(
    transition: Transition,
    generation: Generation,
    expected: Option<VmBinding>,
    replacement: Option<VmBinding>,
    after: Phase)

  function CheckIntent(intent: OwnershipIntent, own: OwnershipIntent): Result<(), StoreError> {
    if intent != own then Err(InvalidOwnershipIntent) else Ok(())
  }

  function CheckBinding(binding: VmBinding, own: OwnershipIntent): Result<(), StoreError> {
    var _ :- CheckIntent(binding.intent, own);
    if !CanonicalUuid(binding.providerId) then Err(InvalidProviderUuid) else Ok(())
  }

  function CheckOptionalBinding(binding: Option<VmBinding>, own: OwnershipIntent): Result<(), StoreError> {
    if binding.None? then Ok(()) else CheckBinding(binding.value, own)
  }

  /** The argument checks an operation makes before it acts on what it read. */
  function CheckArguments(op: StoreOp, caller: OwnershipIntent, own: OwnershipIntent): Result<(), StoreError> {
    match op
    case PrepareCreateOp => CheckIntent(caller, own)
    case DispatchCreateOp(_) => CheckIntent(caller, own)
    case PrepareDeleteOp(b) => var _ :- CheckBinding(b, own); CheckIntent(caller, own)
    case DispatchDeleteOp(b) => var _ :- CheckBinding(b, own); CheckIntent(caller, own)
    case SwapOp(expected, replacement) =>
      var _ :- CheckIntent(caller, own);
      var _ :- CheckOptionalBinding(expected, own);
      CheckOptionalBinding(replacement, own)
  }

  function PlanSwap(expected: Option<VmBinding>, replacement: Option<VmBinding>, phase: Phase)
    : Result<Write, StoreError>
  {
    if phase.Terminal? then Err(TerminalIntentReuse)
    else match (expected, replacement)
      case (None, Some(new_)) =>
        if phase == CreateDispatched(new_.generation) then
          Ok(Write(Bind, new_.generation, None, Some(new_), Bound(new_)))
        else if phase.CreatePrepared? || phase.Empty? then Err(InvalidTransition)
        else Err(OperationInProgress)
      case (Some(old_), Some(new_)) =>
        if phase == Bound(old_) then
          var next := NextGeneration(old_.generation);
          if || next.None?
             || new_.intent != old_.intent
             || new_.providerId == old_.providerId
             || new_.generation != next.value
          then Err(InvalidTransition)
          else Ok(Write(Replace, new_.generation, Some(old_), Some(new_), Bound(new_)))
        else if phase.Bound? then Err(CompareAndSwapConflict)
        else Err(OperationInProgress)
      case (Some(old_), None) =>
        if phase == DeleteDispatched(old_) then
          Ok(Write(Clear, old_.generation, Some(old_), None, Terminal(old_.generation)))
        else if phase.Bound? && phase.binding != old_ then Err(CompareAndSwapConflict)
        else Err(InvalidTransition)
      case (None, None) => Err(InvalidTransition)
  }

  /** The guard of every operation against the phase it read. */
  function PlanWrite(op: StoreOp, phase: Phase): Result<Write, StoreError> {
    match op
    case PrepareCreateOp =>
      if phase.Empty? then Ok(Write(PrepareCreate, INITIAL, None, None, CreatePrepared(INITIAL)))
      else if phase.Terminal? then Err(TerminalIntentReuse)
      else Err(OperationInProgress)
    case DispatchCreateOp(g) =>
      if phase == CreatePrepared(g) then Ok(Write(DispatchCreate, g, None, None, CreateDispatched(g)))
      else if phase == CreateDispatched(g) then Err(CreateAlreadyDispatched)
      else if phase.Terminal? then Err(TerminalIntentReuse)
      else Err(InvalidTransition)
    case PrepareDeleteOp(b) =>
      if phase == Bound(b) then Ok(Write(PrepareDelete, b.generation, Some(b), None, DeletePrepared(b)))
      else if phase.Terminal? then Err(TerminalIntentReuse)
      else if phase.Bound? then Err(CompareAndSwapConflict)
      else Err(OperationInProgress)
    case DispatchDeleteOp(b) =>
      if phase == DeletePrepared(b) then Ok(Write(DispatchDelete, b.generation, Some(b), None, DeleteDispatched(b)))
      else if phase == DeleteDispatched(b) then Err(DeleteAlreadyDispatched)
      else if phase.Terminal? then Err(TerminalIntentReuse)
      else Err(InvalidTransition)
    case SwapOp(expected, replacement) => PlanSwap(expected, replacement, phase)
  }

  function FromBinding(binding: Option<VmBinding>): Option<BindingPayload> {
    if binding.None? then None else Some(BindingPayload(binding.value.providerId, binding.value.generation))
  }

  function NewPayload(sha: string, intent: OwnershipIntent, head: Option<U64>, write: Write): Payload {
    Payload(LEDGER_FORMAT_VERSION, OWNERSHIP_PROJECT, OWNERSHIP_MANAGER, sha, Acceptance, intent.id, head,
            write.transition, write.generation, FromBinding(write.expected), FromBinding(write.replacement))
  }

  /** The record the backend stores for a payload, under the id it assigns. */
  function NewRecord(id: U64, sha: string, intent: OwnershipIntent, head: Option<U64>, write: Write): Record {
    Record(id, sha, sha, DEPLOYMENT_TASK, DEPLOYMENT_ENVIRONMENT, NewPayload(sha, intent, head, write))
  }

  // ---------------------------------------------------------------- what one operation does

  /** How the append request ended; a failed request may or may not have taken effect. */
  datatype AppendOutcome = Appended | FailedBefore | FailedAfter

  /** The outside world of one operation: the two reads, the append and the id it is given. */
  datatype Io = Io(readOk: bool, append: AppendOutcome, rereadOk: bool, newId: U64)

  predicate Reliable(io: Io) {
    io.readOk && io.append == Appended && io.rereadOk
  }

  function ReadState(log: seq<Record>, ok: bool, sha: string, own: OwnershipIntent): Result<LedgerState, StoreError> {
    if ok then Reconstruct(log, sha, own) else Err(HttpTransport)
  }

  /** Append and verify: the second half of an operation. */
  function RunAppend(log: seq<Record>, sha: string, own: OwnershipIntent, head: Option<U64>, write: Write, io: Io)
    : (Result<(), StoreError>, seq<Record>)
  {
    if io.append == FailedBefore then (Err(HttpTransport), log)
    else
      var log' := log + [NewRecord(io.newId, sha, own, head, write)];
      if io.append == FailedAfter then (Err(HttpTransport), log')
      else
        var after := ReadState(log', io.rereadOk, sha, own);
        if after.Err? then (Err(after.error), log')
        else if after.value != LedgerState(Some(io.newId), write.after) then (Err(WriteVerificationFailed), log')
        else (Ok(()), log')
  }

  /** Result and new record list of one operation executed without interference. */
  function RunOp(log: seq<Record>, sha: string, own: OwnershipIntent, caller: OwnershipIntent, op: StoreOp, io: Io)
    : (Result<(), StoreError>, seq<Record>)
  {
    var arguments := CheckArguments(op, caller, own);
    if arguments.Err? then (Err(arguments.error), log)
    else
      var before := ReadState(log, io.readOk, sha, own);
      if before.Err? then (Err(before.error), log)
      else
        var plan := PlanWrite(op, before.value.phase);
        if plan.Err? then (Err(plan.error), log)
        else RunAppend(log, sha, own, before.value.head, plan.value, io)
  }

  // ---------------------------------------------------------------- the store

  /** The shared deployment list; appends are the only change it ever sees. */
  class DeploymentBackend {
    var records: seq<Record>

    constructor ()
      ensures records == []
    {
      records := [];
    }

    method ListRecords(ok: bool) returns (r: Result<seq<Record>, StoreError>)
      ensures r == if ok then Ok(records) else Err(HttpTransport)
    {
      if ok {
        return Ok(records);
      }
      return Err(HttpTransport);
    }

    method AppendRecord(sha: string, payload: Payload, outcome: AppendOutcome, newId: U64)
      returns (r: Result<Record, StoreError>)
      modifies this
      ensures var record := Record(newId, sha, sha, DEPLOYMENT_TASK, DEPLOYMENT_ENVIRONMENT, payload);
              && records == old(records) + (if outcome == FailedBefore then [] else [record])
              && r == if outcome == Appended then Ok(record) else Err(HttpTransport)
    {
      if outcome == FailedBefore {
        return Err(HttpTransport);
      }
      var record := Record(newId, sha, sha, DEPLOYMENT_TASK, DEPLOYMENT_ENVIRONMENT, payload);
      records := records + [record];
      if outcome == FailedAfter {
        return Err(HttpTransport);
      }
      return Ok(record);
    }
  }

  class Store {
    const backend: DeploymentBackend
    const sha: string
    const intent: OwnershipIntent

    constructor (backend: DeploymentBackend, sha: string, intent: OwnershipIntent)
      ensures this.backend == backend && this.sha == sha && this.intent == intent
    {
      this.backend := backend;
      this.sha := sha;
      this.intent := intent;
    }

    method CurrentState(caller: OwnershipIntent, ok: bool) returns (r: Result<LedgerState, StoreError>)
      ensures r == if caller != intent then Err(InvalidOwnershipIntent)
                   else ReadState(backend.records, ok, sha, intent)
    {
      if caller != intent {
        return Err(InvalidOwnershipIntent);
      }
      var listed := backend.ListRecords(ok);
      if listed.Err? {
        return Err(listed.error);
      }
      r := ReconstructLedger(listed.value, sha, intent);
    }

    method AppendTransition(before: LedgerState, write: Write, io: Io) returns (r: Result<(), StoreError>)
      modifies backend
      ensures (r, backend.records) == RunAppend(old(backend.records), sha, intent, before.head, write, io)
    {
      var payload := NewPayload(sha, intent, before.head, write);
      var created := backend.AppendRecord(sha, payload, io.append, io.newId);
      if created.Err? {
        assert backend.records == RunAppend(old(backend.records), sha, intent, before.head, write, io).1;
        return Err(created.error);
      }
      var after := CurrentState(intent, io.rereadOk);
      if after.Err? {
        return Err(after.error);
      }
      if after.value.head != Some(created.value.id) || after.value.phase != write.after {
        return Err(WriteVerificationFailed);
      }
      return Ok(());
    }

    method PrepareCreate(caller: OwnershipIntent, io: Io) returns (r: Result<Generation, StoreError>)
      modifies backend
      ensures var (result, log) := RunOp(old(backend.records), sha, intent, caller, PrepareCreateOp, io);
              && backend.records == log
              && r == if result.Ok? then Ok(INITIAL) else Err(result.error)
    {
      var before := CurrentState(caller, io.readOk);
      if before.Err? {
        return Err(before.error);
      }
      match before.value.phase
      case Empty =>
        var write := Write(Transition.PrepareCreate, INITIAL, None, None, CreatePrepared(INITIAL));
        var appended := AppendTransition(before.value, write, io);
        if appended.Err? {
          return Err(appended.error);
        }
        return Ok(INITIAL);
      case Terminal(_) => return Err(TerminalIntentReuse);
      case _ => return Err(OperationInProgress);
    }

    method MarkCreateDispatched(caller: OwnershipIntent, generation: Generation, io: Io)
      returns (r: Result<(), StoreError>)
      modifies backend
      ensures (r, backend.records)
           == RunOp(old(backend.records), sha, intent, caller, DispatchCreateOp(generation), io)
    {
      var before := CurrentState(caller, io.readOk);
      if before.Err? {
        return Err(before.error);
      }
      match before.value.phase
      case CreatePrepared(prepared) =>
        if prepared == generation {
          var write := Write(DispatchCreate, generation, None, None, CreateDispatched(generation));
          r := AppendTransition(before.value, write, io);
        } else {
          return Err(InvalidTransition);
        }
      case CreateDispatched(dispatched) =>
        return Err(if dispatched == generation then CreateAlreadyDispatched else InvalidTransition);
      case Terminal(_) => return Err(TerminalIntentReuse);
      case _ => return Err(InvalidTransition);
    }

    method PrepareDelete(caller: OwnershipIntent, binding: VmBinding, io: Io) returns (r: Result<(), StoreError>)
      modifies backend
      ensures (r, backend.records)
           == RunOp(old(backend.records), sha, intent, caller, PrepareDeleteOp(binding), io)
    {
      var valid := CheckBinding(binding, intent);
      if valid.Err? {
        return Err(valid.error);
      }
      var before := CurrentState(caller, io.readOk);
      if before.Err? {
        return Err(before.error);
      }
      match before.value.phase
      case Bound(current) =>
        if current == binding {
          var after := DeletePrepared(binding);
          var write := Write(Transition.PrepareDelete, binding.generation, Some(binding), None, after);
          r := AppendTransition(before.value, write, io);
        } else {
          return Err(CompareAndSwapConflict);
        }
      case Terminal(_) => return Err(TerminalIntentReuse);
      case _ => return Err(OperationInProgress);
    }

    method MarkDeleteDispatched(caller: OwnershipIntent, binding: VmBinding, io: Io)
      returns (r: Result<(), StoreError>)
      modifies backend
      ensures (r, backend.records)
           == RunOp(old(backend.records), sha, intent, caller, DispatchDeleteOp(binding), io)
    {
      var valid := CheckBinding(binding, intent);
      if valid.Err? {
        return Err(valid.error);
      }
      var before := CurrentState(caller, io.readOk);
      if before.Err? {
        return Err(before.error);
      }
      match before.value.phase
      case DeletePrepared(current) =>
        if current == binding {
          var write := Write(DispatchDelete, binding.generation, Some(binding), None, DeleteDispatched(binding));
          r := AppendTransition(before.value, write, io);
        } else {
          return Err(InvalidTransition);
        }
      case DeleteDispatched(current) =>
        return Err(if current == binding then DeleteAlreadyDispatched else InvalidTransition);
      case Terminal(_) => return Err(TerminalIntentReuse);
      case _ => return Err(InvalidTransition);
    }

    method Load(caller: OwnershipIntent, ok: bool) returns (r: Result<Option<VmBinding>, StoreError>)
      ensures r.Ok? <==> caller == intent && ReadState(backend.records, ok, sha, intent).Ok?
                         && (ReadState(backend.records, ok, sha, intent).value.phase.Empty?
                             || ReadState(backend.records, ok, sha, intent).value.phase.Bound?)
      ensures r.Ok? && r.value.Some? ==>
                ReadState(backend.records, ok, sha, intent).value.phase == Bound(r.value.value)
      ensures r.Ok? && r.value.None? ==> ReadState(backend.records, ok, sha, intent).value.phase.Empty?
      ensures caller != intent ==> r == Err(InvalidOwnershipIntent)
      ensures caller == intent && ReadState(backend.records, ok, sha, intent).Err? ==>
                r == Err(ReadState(backend.records, ok, sha, intent).error)
      ensures caller == intent && ReadState(backend.records, ok, sha, intent).Ok? && r.Err? ==>
                r.error == if ReadState(backend.records, ok, sha, intent).value.phase.Terminal?
                           then TerminalIntentReuse else OperationInProgress
    {
      var state := CurrentState(caller, ok);
      if state.Err? {
        return Err(state.error);
      }
      match state.value.phase
      case Empty => return Ok(None);
      case Bound(binding) => return Ok(Some(binding));
      case Terminal(_) => return Err(TerminalIntentReuse);
      case _ => return Err(OperationInProgress);
    }

    method CompareAndSwap(
      caller: OwnershipIntent,
      expected: Option<VmBinding>,
      replacement: Option<VmBinding>,
      io: Io) returns (r: Result<(), StoreError>)
      modifies backend
      ensures (r, backend.records)
           == RunOp(old(backend.records), sha, intent, caller, SwapOp(expected, replacement), io)
    {
      var arguments := CheckArguments(SwapOp(expected, replacement), caller, intent);
      if arguments.Err? {
        return Err(arguments.error);
      }
      var before := CurrentState(caller, io.readOk);
      if before.Err? {
        return Err(before.error);
      }
      var plan := PlanSwap(expected, replacement, before.value.phase);
      if plan.Err? {
        return Err(plan.error);
      }
      r := AppendTransition(before.value, plan.value, io);
    }
  }
}
