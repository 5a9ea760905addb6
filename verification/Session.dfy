/**
  The Item 20 session protocol of apps/operator-cli/src/item20_session_lifecycle.rs as a
  step relation: any number of open and close processes share one ledger and one provider.
  Every external action (a ledger read, an append, a listing, a create or delete call) is
  one step. A process may stop for good before any of its actions, and an append or a
  provider call may fail after it has taken effect.
 */
module Session {
  import opened Wrappers
  import opened Lifecycle
  import opened Ledger
  import opened BindingStore

  const CREATE_RECOVERY_ATTEMPTS: nat := 20
  const DELETE_CONFIRM_ATTEMPTS: nat := 40

  datatype Kind = Opening | Closing

  datatype Outcome =
    | Opened(binding: VmBinding)
    | NoResourceCreated
    | DeletedAndTerminal
    | AlreadyTerminal
    | Failed

  /**
    Where a process is. `at` is the position of the process's own record in the ledger:
    bookkeeping for the proofs, never consulted by the protocol.
   */
  datatype Pc =
    | Start
    | ListForCreate(prepared: Option<Generation>)
    | CheckBound(binding: VmBinding)
    | StoreRead(op: StoreOp)
    | StoreAppend(op: StoreOp, head: Option<U64>, write: Write)
    | StoreVerify(op: StoreOp, write: Write, id: U64, at: nat)
    | CallCreate(generation: Generation, at: nat)
    | Recover(generation: Generation, attempt: nat)
    | ResolveDelete(binding: VmBinding, alreadyPrepared: bool)
    | CallDelete(binding: VmBinding)
    | ConfirmDeleted(binding: VmBinding, attempt: nat)
    | RecoverDelete(binding: VmBinding)
    | CheckTerminal(binding: VmBinding)
    | Done(outcome: Outcome)

  datatype Process = Process(kind: Kind, pc: Pc)

  datatype Vm = Vm(displayName: string, ownership: OwnershipObservation, specFingerprint: string)

  /** The admitted session: its candidate and the machine it wants. */
  datatype Config = Config(sha: string, displayName: string, specFingerprint: string) {
    function Intent(): OwnershipIntent {
      IntentOf(Item20, sha)
    }

    function Desired(): DesiredVm {
      DesiredVm(Intent(), displayName, specFingerprint)
    }
  }

  /**
    The shared world. `authors` names the process behind each record; `used` holds every
    provider id ever assigned, `born` those assigned to this session's creates; `creates`
    and `deletes` list the provider calls made so far, a create by its record's position.
   */
  datatype World = World(
    log: seq<Record>,
    authors: seq<nat>,
    vms: map<string, Vm>,
    used: set<string>,
    born: set<string>,
    inflight: nat,
    procs: map<nat, Process>,
    creates: seq<nat>,
    deletes: seq<VmBinding>)

  // ---------------------------------------------------------------- one process

  /** After a verified append: what the surrounding session function does next. */
  function AfterStore(kind: Kind, op: StoreOp, at: nat): Pc {
    match op
    case PrepareCreateOp => StoreRead(DispatchCreateOp(INITIAL))
    case DispatchCreateOp(g) => CallCreate(g, at)
    case PrepareDeleteOp(b) => StoreRead(DispatchDeleteOp(b))
    case DispatchDeleteOp(b) => CallDelete(b)
    case SwapOp(None, Some(b)) => if kind == Opening then Done(Opened(b)) else ResolveDelete(b, false)
    case SwapOp(Some(b), None) => CheckTerminal(b)
    case _ => Done(Failed)
  }

  /** Entering recover_create_binding, which refuses any generation but the first. */
  function BeginRecovery(c: Config, g: Generation): Pc {
    if CreateFence(c.Intent(), g, c.Desired()).Ok? then Recover(g, 0) else Done(Failed)
  }

  function AfterOpenRead(c: Config, phase: Phase): Pc {
    match phase
    case Empty => ListForCreate(None)
    case CreatePrepared(g) => ListForCreate(Some(g))
    case CreateDispatched(g) => BeginRecovery(c, g)
    case Bound(b) => CheckBound(b)
    case DeletePrepared(_) => Done(Failed)
    case DeleteDispatched(_) => Done(Failed)
    case Terminal(_) => Done(Failed)
  }

  function AfterCloseRead(c: Config, phase: Phase): Pc {
    match phase
    case Empty => Done(NoResourceCreated)
    case CreatePrepared(_) => Done(Failed)
    case CreateDispatched(g) => BeginRecovery(c, g)
    case Bound(b) => ResolveDelete(b, false)
    case DeletePrepared(b) => ResolveDelete(b, true)
    case DeleteDispatched(b) => RecoverDelete(b)
    case Terminal(_) => Done(AlreadyTerminal)
  }

  predicate ReadsLedger(pc: Pc) {
    pc.Start? || pc.StoreRead? || pc.StoreVerify? || pc.CheckTerminal?
  }

  /** The next program point after the ledger has been read as `read`. */
  function AfterRead(c: Config, process: Process, read: Result<LedgerState, StoreError>): Pc
    requires ReadsLedger(process.pc)
  {
    if read.Err? then Done(Failed)
    else
      var state := read.value;
      match process.pc
      case Start => if process.kind == Opening then AfterOpenRead(c, state.phase) else AfterCloseRead(c, state.phase)
      case StoreRead(op) =>
        if CheckArguments(op, c.Intent(), c.Intent()).Err? || PlanWrite(op, state.phase).Err? then Done(Failed)
        else StoreAppend(op, state.head, PlanWrite(op, state.phase).value)
      case StoreVerify(op, write, id, at) =>
        if state == LedgerState(Some(id), write.after) then AfterStore(process.kind, op, at) else Done(Failed)
      case CheckTerminal(b) =>
        if state.phase == Terminal(b.generation) then Done(DeletedAndTerminal) else Done(Failed)
  }

  predicate ListsProvider(pc: Pc) {
    || pc.ListForCreate?
    || pc.CheckBound?
    || pc.Recover?
    || pc.ResolveDelete?
    || pc.ConfirmDeleted?
    || pc.RecoverDelete?
  }

  function AfterRecoverListing(c: Config, g: Generation, attempt: nat, observed: seq<ObservedVm>): Pc {
    var fence := CreateFence(c.Intent(), g, c.Desired());
    if fence.Err? then Done(Failed)
    else
      match RecoverDispatchedCreate(fence.value, observed)
      case Err(_) => Done(Failed)
      case Ok(AwaitProvider) =>
        if attempt + 1 < CREATE_RECOVERY_ATTEMPTS then Recover(g, attempt + 1) else Done(Failed)
      case Ok(Recovered(b)) => StoreRead(SwapOp(None, Some(b)))
  }

  function AfterConfirmListing(b: VmBinding, attempt: nat, observed: seq<ObservedVm>): Pc {
    match AuthorizeMutation(b, observed, b.generation)
    case Err(ProviderResourceNotFound) => StoreRead(SwapOp(Some(b), None))
    case Err(_) => Done(Failed)
    case Ok(_) =>
      if attempt + 1 < DELETE_CONFIRM_ATTEMPTS then ConfirmDeleted(b, attempt + 1) else Done(Failed)
  }

  /** The next program point after the provider returned the listing `observed`. */
  function AfterListing(c: Config, process: Process, observed: seq<ObservedVm>): Pc
    requires ListsProvider(process.pc)
  {
    match process.pc
    case ListForCreate(prepared) =>
      var plan := PlanPresent(None, observed, c.Desired(), None);
      if plan.Err? || !plan.value.Create? then Done(Failed)
      else
        var fence := CreateFence(plan.value.intent, plan.value.generation, c.Desired());
        if fence.Err? then Done(Failed)
        else if prepared.None? then StoreRead(PrepareCreateOp)
        else if prepared.value != fence.value.generation then Done(Failed)
        else StoreRead(DispatchCreateOp(prepared.value))
    case CheckBound(b) =>
      var plan := PlanPresent(Some(b), observed, c.Desired(), Some(b.generation));
      if plan.Ok? && plan.value.Noop? then Done(Opened(b)) else Done(Failed)
    case Recover(g, attempt) => AfterRecoverListing(c, g, attempt, observed)
    case ResolveDelete(b, prepared) =>
      if AuthorizeMutation(b, observed, b.generation).Err? then Done(Failed)
      else if prepared then StoreRead(DispatchDeleteOp(b))
      else StoreRead(PrepareDeleteOp(b))
    case ConfirmDeleted(b, attempt) => AfterConfirmListing(b, attempt, observed)
    case RecoverDelete(b) =>
      match AuthorizeMutation(b, observed, b.generation)
      case Err(ProviderResourceNotFound) => StoreRead(SwapOp(Some(b), None))
      case Err(_) => Done(Failed)
      case Ok(_) => CallDelete(b)
  }

  // ---------------------------------------------------------------- the provider

  function Observe(id: string, vm: Vm): ObservedVm {
    ObservedVm(id, vm.displayName, vm.ownership, vm.specFingerprint)
  }

  /** A complete listing: every machine, nothing else, in any order. */
  ghost predicate IsListing(observed: seq<ObservedVm>, vms: map<string, Vm>) {
    && (forall o | o in observed :: o.providerId in vms && o == Observe(o.providerId, vms[o.providerId]))
    && (forall id | id in vms :: Observe(id, vms[id]) in observed)
  }

  // ---------------------------------------------------------------- the step relation

  datatype Step =
    | Spawn(pid: nat, kind: Kind)
    | Crash(pid: nat)
    | ReadLedger(pid: nat)
    | ListInstances(pid: nat, observed: seq<ObservedVm>)
    | Append(pid: nat, newId: U64, outcome: AppendOutcome)
    | CreateVm(pid: nat, reaches: bool, ok: bool)
    | DeleteVm(pid: nat, ok: bool)
    | Materialise(id: string)
    | LoseCreate
    | RemoveVm(id: string)
    | AddForeignVm(id: string, vm: Vm)
    | DriftVm(id: string, name: string, spec: string)
    | ForeignRecord(record: Record, author: nat)

  function At(w: World, pid: nat, pc: Pc): World
    requires pid in w.procs
  {
    w.(procs := w.procs[pid := w.procs[pid].(pc := pc)])
  }

  ghost predicate Next(c: Config, w: World, w': World, step: Step) {
    match step
    case Spawn(pid, kind) =>
      pid !in w.procs && w' == w.(procs := w.procs[pid := Process(kind, Start)])
    case Crash(pid) =>
      pid in w.procs && !w.procs[pid].pc.Done? && w' == At(w, pid, Done(Failed))
    case ReadLedger(pid) =>
      && pid in w.procs && ReadsLedger(w.procs[pid].pc)
      && w' == At(w, pid, AfterRead(c, w.procs[pid], Reconstruct(w.log, c.sha, c.Intent())))
    case ListInstances(pid, observed) =>
      && pid in w.procs && ListsProvider(w.procs[pid].pc) && IsListing(observed, w.vms)
      && w' == At(w, pid, AfterListing(c, w.procs[pid], observed))
    case Append(pid, newId, outcome) =>
      && pid in w.procs && w.procs[pid].pc.StoreAppend?
      && var pc := w.procs[pid].pc;
         var record := NewRecord(newId, c.sha, c.Intent(), pc.head, pc.write);
         var grown := w.(log := w.log + [record], authors := w.authors + [pid]);
         w' == if outcome == FailedBefore then At(w, pid, Done(Failed))
               else if outcome == FailedAfter then At(grown, pid, Done(Failed))
               else At(grown, pid, StoreVerify(pc.op, pc.write, newId, |w.log|))
    case CreateVm(pid, reaches, ok) =>
      && pid in w.procs && w.procs[pid].pc.CallCreate?
      && var pc := w.procs[pid].pc;
         var called := w.(creates := w.creates + [pc.at], inflight := w.inflight + if reaches then 1 else 0);
         w' == At(called, pid, if ok then BeginRecovery(c, pc.generation) else Done(Failed))
    case DeleteVm(pid, ok) =>
      && pid in w.procs && w.procs[pid].pc.CallDelete?
      && var b := w.procs[pid].pc.binding;
         w' == At(w.(deletes := w.deletes + [b]), pid, if ok then ConfirmDeleted(b, 0) else Done(Failed))
    case Materialise(id) =>
      && w.inflight > 0 && id !in w.used
      && var vm := Vm(c.displayName, Exact(ExactOwnership(c.Intent(), INITIAL)), c.specFingerprint);
         w' == w.(vms := w.vms[id := vm], used := w.used + {id}, born := w.born + {id}, inflight := w.inflight - 1)
    case LoseCreate =>
      w.inflight > 0 && w' == w.(inflight := w.inflight - 1)
    case RemoveVm(id) =>
      id in w.vms && w' == w.(vms := w.vms - {id})
    case AddForeignVm(id, vm) =>
      id !in w.used && !OwnedBy(vm.ownership, c.Intent()) && w' == w.(vms := w.vms[id := vm], used := w.used + {id})
    case DriftVm(id, name, spec) =>
      id in w.vms && w' == w.(vms := w.vms[id := w.vms[id].(displayName := name, specFingerprint := spec)])
    case ForeignRecord(record, author) =>
      && record.payload.intentId != c.Intent().id
      && w' == w.(log := w.log + [record], authors := w.authors + [author])
  }

  ghost predicate Init(c: Config, w: World) {
    && ValidSha(c.sha)
    && (forall r | r in w.log :: r.payload.intentId != c.Intent().id)
    && |w.authors| == |w.log|
    && w.vms.Keys <= w.used
    && (forall id | id in w.vms :: !OwnedBy(w.vms[id].ownership, c.Intent()))
    && w.born == {} && w.inflight == 0 && w.procs == map[] && w.creates == [] && w.deletes == []
  }

  /** A run of any length: a start world, and each step leading to the next world. */
  ghost predicate Run(c: Config, worlds: seq<World>, steps: seq<Step>) {
    && |worlds| == |steps| + 1
    && Init(c, worlds[0])
    && forall i | 0 <= i < |steps| :: Next(c, worlds[i], worlds[i + 1], steps[i])
  }

  /** The machines that carry this session's ownership. */
  function OwnedVms(c: Config, w: World): set<string> {
    set id | id in w.vms && OwnedBy(w.vms[id].ownership, c.Intent())
  }
}
