/**
  What sessions decide and report, in terms of the machines and the ledger themselves: each
  listing leads where the machines that exist call for, each read where the durable phase calls
  for, and a reported outcome is true when it is reported.
 */
module SessionDecisions {
  import opened Wrappers
  import opened Lifecycle
  import opened Ledger
  import opened LedgerTheory
  import opened BindingStore
  import opened BindingStoreTheory
  import opened Session
  import opened SessionTheory
  import opened SessionProgress

  // ---------------------------------------------------------------- listings and machines

  /** No machine is listed twice. */
  ghost predicate ListsOnce(observed: seq<ObservedVm>) {
    forall i, j | 0 <= i < j < |observed| :: observed[i].providerId != observed[j].providerId
  }

  lemma ListedAt(observed: seq<ObservedVm>, vms: map<string, Vm>, id: string) returns (i: nat)
    requires IsListing(observed, vms) && id in vms
    ensures i < |observed| && observed[i] == Observe(id, vms[id])
  {
    assert Observe(id, vms[id]) in observed;
    i :| 0 <= i < |observed| && observed[i] == Observe(id, vms[id]);
  }

  lemma ListedMachine(observed: seq<ObservedVm>, vms: map<string, Vm>, i: nat)
    requires IsListing(observed, vms) && i < |observed|
    ensures observed[i].providerId in vms && observed[i] == Observe(observed[i].providerId, vms[observed[i].providerId])
  {
    assert observed[i] in observed;
  }

  /** In a listing without repeats, the only machine of a kind is in the only place of that kind. */
  lemma OnlyMachine(observed: seq<ObservedVm>, vms: map<string, Vm>, keep: ObservedVm -> bool, id: string)
    returns (i: nat)
    requires IsListing(observed, vms) && ListsOnce(observed)
    requires id in vms && keep(Observe(id, vms[id])) && forall x | x in vms && x != id :: !keep(Observe(x, vms[x]))
    ensures OnlyAt(observed, keep, i) && observed[i] == Observe(id, vms[id])
  {
    i := ListedAt(observed, vms, id);
    forall j | 0 <= j < |observed| && j != i ensures !keep(observed[j]) {
      ListedMachine(observed, vms, j);
      assert observed[j].providerId != id;
    }
  }

  /** Whatever a listing repeats, a kind found in only one place is a kind of one machine. */
  lemma OnlyPlace(observed: seq<ObservedVm>, vms: map<string, Vm>, keep: ObservedVm -> bool, i: nat)
    requires IsListing(observed, vms) && OnlyAt(observed, keep, i)
    ensures observed[i].providerId in vms && observed[i] == Observe(observed[i].providerId, vms[observed[i].providerId])
    ensures forall x | x in vms && x != observed[i].providerId :: !keep(Observe(x, vms[x]))
  {
    ListedMachine(observed, vms, i);
    forall x | x in vms && x != observed[i].providerId ensures !keep(Observe(x, vms[x])) {
      var j := ListedAt(observed, vms, x);
      assert j != i;
    }
  }

  // ---------------------------------------------------------------- one listing

  lemma NothingListed(c: Config, observed: seq<ObservedVm>, vms: map<string, Vm>)
    requires IsListing(observed, vms)
    ensures NoneInTheWay(c, vms) <==>
      forall vm | vm in observed :: !Claims(vm, c.Intent()) && vm.displayName != c.displayName
  {
    forall id | id in vms ensures Observe(id, vms[id]) in observed {
    }
    if forall vm | vm in observed :: !Claims(vm, c.Intent()) && vm.displayName != c.displayName {
      forall id | id in vms ensures !OwnedBy(vms[id].ownership, c.Intent()) && vms[id].displayName != c.displayName {
        assert Observe(id, vms[id]) in observed;
      }
    }
  }

  /** What a listing before a create calls for. */
  lemma CreateDecision(c: Config, w: World, kind: Kind, prepared: Option<Generation>, observed: seq<ObservedVm>)
    requires IsListing(observed, w.vms)
    ensures AfterListing(c, Process(kind, ListForCreate(prepared)), observed) ==
      if !NoneInTheWay(c, w.vms) then Done(Failed)
      else if prepared.None? then StoreRead(PrepareCreateOp)
      else if prepared.value == 1 then StoreRead(DispatchCreateOp(1))
      else Done(Failed)
  {
    NothingListed(c, observed, w.vms);
    CreatePlannedIffUnclaimed(observed, c.Desired());
  }

  /** A listing tells of a bound machine exactly whether it is there. */
  lemma DeleteVerdict(c: Config, w: World, b: VmBinding, observed: seq<ObservedVm>)
    requires Inv(c, w) && BindingOk(c, w, b) && IsListing(observed, w.vms)
    ensures var verdict := AuthorizeMutation(b, observed, b.generation);
            && (verdict.Ok? ==> b.providerId in w.vms)
            && (verdict == Err(ProviderResourceNotFound) <==> b.providerId !in w.vms)
            && (ListsOnce(observed) ==> (verdict.Ok? <==> b.providerId in w.vms))
  {
    OthersDoNotClaim(c, w, b);
    AuthorizedIff(b, observed, b.generation);
    NotFoundIffAbsent(b, observed);
    forall i | 0 <= i < |observed| ensures observed[i].providerId in w.vms {
      ListedMachine(observed, w.vms, i);
    }
    if b.providerId in w.vms {
      var i := ListedAt(observed, w.vms, b.providerId);
      assert observed[i] in observed;
      if ListsOnce(observed) {
        ClaimedOnce(c, w, b, observed);
      }
    } else {
      AbsentVerdict(c, w, b, observed);
    }
  }

  lemma AbsentVerdict(c: Config, w: World, b: VmBinding, observed: seq<ObservedVm>)
    requires Inv(c, w) && BindingOk(c, w, b) && IsListing(observed, w.vms) && b.providerId !in w.vms
    ensures forall vm | vm in observed :: vm.providerId != b.providerId && !Claims(vm, b.intent)
  {
    OthersDoNotClaim(c, w, b);
  }

  lemma ClaimedOnce(c: Config, w: World, b: VmBinding, observed: seq<ObservedVm>)
    requires Inv(c, w) && BindingOk(c, w, b) && IsListing(observed, w.vms) && ListsOnce(observed)
    requires b.providerId in w.vms
    ensures AuthorizeMutation(b, observed, b.generation).Ok?
  {
    OthersDoNotClaim(c, w, b);
    var i := OnlyMachine(observed, w.vms, vm => Claims(vm, b.intent), b.providerId);
    assert ClaimsOnlyAt(observed, b.intent, i);
    AuthorizedIff(b, observed, b.generation);
  }

  /** A bound session is reported open exactly when its machine is there with the wanted specification. */
  lemma OpenDecision(c: Config, w: World, kind: Kind, b: VmBinding, observed: seq<ObservedVm>)
    requires Inv(c, w) && BindingOk(c, w, b) && IsListing(observed, w.vms)
    ensures var pc := AfterListing(c, Process(kind, CheckBound(b)), observed);
            var fits := b.providerId in w.vms && w.vms[b.providerId].specFingerprint == c.specFingerprint;
            && (pc == Done(Opened(b)) || pc == Done(Failed))
            && (pc == Done(Opened(b)) ==> fits)
            && (ListsOnce(observed) && fits ==> pc == Done(Opened(b)))
  {
    DeleteVerdict(c, w, b, observed);
    var verdict := AuthorizeMutation(b, observed, b.generation);
    if verdict.Ok? {
      AuthorizedTargetIsBoundVm(b, observed, b.generation);
      var vm :| vm in observed && vm.providerId == b.providerId;
      var i := FoundAt(observed, b.providerId);
      ListedMachine(observed, w.vms, i);
    }
  }

  /** The fence every recovery looks through. */
  function Fence(c: Config): CreateDispatchFence {
    CreateDispatchFence(c.Intent(), INITIAL, c.displayName, c.specFingerprint)
  }

  lemma RecoverLooksThroughFence(c: Config, attempt: nat, observed: seq<ObservedVm>)
    ensures AfterRecoverListing(c, INITIAL, attempt, observed) ==
      match RecoverDispatchedCreate(Fence(c), observed)
      case Err(_) => Done(Failed)
      case Ok(AwaitProvider) => if attempt < 19 then Recover(INITIAL, attempt + 1) else Done(Failed)
      case Ok(Recovered(b)) => StoreRead(SwapOp(None, Some(b)))
  {
  }

  /** Waiting for a create goes on exactly while no machine claims the intent or has the name. */
  lemma WaitDecision(c: Config, w: World, observed: seq<ObservedVm>)
    requires IsListing(observed, w.vms)
    ensures RecoverDispatchedCreate(Fence(c), observed) == Ok(AwaitProvider) <==> NoneInTheWay(c, w.vms)
  {
    RecoveryIff(Fence(c), observed, WantedBinding(c, ""));
    NothingListed(c, observed, w.vms);
    WaitingIff(c, observed);
  }

  /** It ends with a machine exactly when that one is there as wanted and nothing is in its way. */
  lemma FoundDecision(c: Config, w: World, observed: seq<ObservedVm>, b: VmBinding)
    requires IsListing(observed, w.vms)
    ensures RecoverDispatchedCreate(Fence(c), observed) == Ok(Recovered(b)) ==>
              b == WantedBinding(c, b.providerId) && OnlyWanted(c, w.vms, b.providerId)
    ensures ListsOnce(observed) && b == WantedBinding(c, b.providerId) && OnlyWanted(c, w.vms, b.providerId) ==>
              RecoverDispatchedCreate(Fence(c), observed) == Ok(Recovered(b))
  {
    if RecoverDispatchedCreate(Fence(c), observed) == Ok(Recovered(b)) {
      RecoveryIff(Fence(c), observed, b);
      FoundIsWanted(c, w, observed, b.providerId);
    }
    if ListsOnce(observed) && b == WantedBinding(c, b.providerId) && OnlyWanted(c, w.vms, b.providerId) {
      WantedFound(c, w, observed, b.providerId);
    }
  }

  lemma WantedIsUnique(c: Config, vms: map<string, Vm>, id: string, id': string)
    requires OnlyWanted(c, vms, id) && OnlyWanted(c, vms, id')
    ensures id == id'
  {
    assert forall x | x in vms && x != id :: x in vms - {id};
  }

  lemma WaitingIff(c: Config, observed: seq<ObservedVm>)
    ensures (&& NoneClaims(observed, c.Intent())
             && forall j | 0 <= j < |observed| :: observed[j].displayName != c.displayName)
       <==> forall vm | vm in observed :: !Claims(vm, c.Intent()) && vm.displayName != c.displayName
  {
    if forall vm | vm in observed :: !Claims(vm, c.Intent()) && vm.displayName != c.displayName {
      assert forall j | 0 <= j < |observed| :: observed[j] in observed;
    }
  }

  lemma WantedFound(c: Config, w: World, observed: seq<ObservedVm>, id: string)
    requires IsListing(observed, w.vms) && ListsOnce(observed) && OnlyWanted(c, w.vms, id)
    ensures RecoverDispatchedCreate(Fence(c), observed) == Ok(Recovered(WantedBinding(c, id)))
  {
    var fence := Fence(c);
    forall x | x in w.vms && x != id
      ensures !OwnedBy(w.vms[x].ownership, c.Intent()) && w.vms[x].displayName != c.displayName
    {
      assert x in w.vms - {id};
    }
    var i := OnlyMachine(observed, w.vms, vm => Claims(vm, fence.intent), id);
    var j := OnlyMachine(observed, w.vms, (vm: ObservedVm) => vm.displayName == fence.displayName, id);
    assert ClaimsOnlyAt(observed, fence.intent, i) && NamedOnlyAt(observed, fence.displayName, j);
    RecoveryIff(fence, observed, WantedBinding(c, id));
  }

  lemma FoundIsWanted(c: Config, w: World, observed: seq<ObservedVm>, id: string)
    requires IsListing(observed, w.vms)
    requires RecoverDispatchedCreate(Fence(c), observed) == Ok(Recovered(WantedBinding(c, id)))
    ensures OnlyWanted(c, w.vms, id)
  {
    var fence := Fence(c);
    RecoveryIff(fence, observed, WantedBinding(c, id));
    var i, j :| ClaimsOnlyAt(observed, fence.intent, i) && NamedOnlyAt(observed, fence.displayName, j)
                && observed[i].providerId == observed[j].providerId
                && observed[i].ownership == Exact(ExactOwnership(fence.intent, fence.generation))
                && observed[i].specFingerprint == fence.specFingerprint
                && WantedBinding(c, id) == VmBinding(fence.intent, observed[i].providerId, fence.generation);
    OnlyPlace(observed, w.vms, vm => Claims(vm, fence.intent), i);
    OnlyPlace(observed, w.vms, (vm: ObservedVm) => vm.displayName == fence.displayName, j);
    forall x | x in w.vms - {id}
      ensures !OwnedBy(w.vms[x].ownership, c.Intent()) && w.vms[x].displayName != c.displayName
    {
      assert !Claims(Observe(x, w.vms[x]), fence.intent) && Observe(x, w.vms[x]).displayName != fence.displayName;
    }
  }

  // ---------------------------------------------------------------- all listings

  /** Where the machines that exist tell a process to go. */
  ghost function Decision(c: Config, w: World, pc: Pc): Pc
    requires ListsProvider(pc)
  {
    match pc
    case ListForCreate(prepared) =>
      if NoneInTheWay(c, w.vms) && (prepared.None? || prepared.value == 1) then
        StoreRead(if prepared.None? then PrepareCreateOp else DispatchCreateOp(1))
      else Done(Failed)
    case CheckBound(b) =>
      if b.providerId in w.vms && w.vms[b.providerId].specFingerprint == c.specFingerprint then Done(Opened(b))
      else Done(Failed)
    case Recover(_, attempt) =>
      if exists id :: OnlyWanted(c, w.vms, id) then
        var id :| OnlyWanted(c, w.vms, id);
        StoreRead(SwapOp(None, Some(VmBinding(c.Intent(), id, 1))))
      else if NoneInTheWay(c, w.vms) && attempt < 19 then Recover(1, attempt + 1)
      else Done(Failed)
    case ResolveDelete(b, prepared) =>
      if b.providerId !in w.vms then Done(Failed)
      else StoreRead(if prepared then DispatchDeleteOp(b) else PrepareDeleteOp(b))
    case ConfirmDeleted(b, attempt) =>
      if b.providerId !in w.vms then StoreRead(SwapOp(Some(b), None))
      else if attempt < 39 then ConfirmDeleted(b, attempt + 1)
      else Done(Failed)
    case RecoverDelete(b) =>
      if b.providerId in w.vms then CallDelete(b) else StoreRead(SwapOp(Some(b), None))
  }

  /** Attempts are counted from the first generation and stay within their bounds. */
  predicate AttemptOk(pc: Pc) {
    (pc.Recover? ==> pc.generation == 1 && pc.attempt < 20) && (pc.ConfirmDeleted? ==> pc.attempt < 40)
  }

  lemma RecoverIsDecision(c: Config, w: World, attempt: nat, observed: seq<ObservedVm>)
    requires IsListing(observed, w.vms)
    ensures var pc, decision := AfterRecoverListing(c, 1, attempt, observed), Decision(c, w, Recover(1, attempt));
            (pc == decision || pc == Done(Failed)) && (ListsOnce(observed) ==> pc == decision)
  {
    RecoverLooksThroughFence(c, attempt, observed);
    WaitDecision(c, w, observed);
    var r := RecoverDispatchedCreate(Fence(c), observed);
    if r.Ok? && r.value.Recovered? {
      FoundDecision(c, w, observed, r.value.binding);
      WantedWins(c, w, attempt, r.value.binding.providerId);
    }
    if id :| OnlyWanted(c, w.vms, id) {
      FoundDecision(c, w, observed, WantedBinding(c, id));
      WantedWins(c, w, attempt, id);
      assert !NoneInTheWay(c, w.vms);
    }
  }

  lemma WantedWins(c: Config, w: World, attempt: nat, id: string)
    requires OnlyWanted(c, w.vms, id)
    ensures Decision(c, w, Recover(1, attempt)) == StoreRead(SwapOp(None, Some(WantedBinding(c, id))))
  {
    forall x | OnlyWanted(c, w.vms, x) ensures x == id {
      WantedIsUnique(c, w.vms, x, id);
    }
  }

  lemma ListingIsDecision(c: Config, w: World, process: Process, observed: seq<ObservedVm>)
    requires Inv(c, w) && IsListing(observed, w.vms) && ListsProvider(process.pc) && AttemptOk(process.pc)
    requires exists p :: PcOk(c, w, p, process.pc)
    ensures var pc, decision := AfterListing(c, process, observed), Decision(c, w, process.pc);
            (pc == decision || pc == Done(Failed)) && (ListsOnce(observed) ==> pc == decision)
  {
    match process.pc
    case ListForCreate(prepared) => CreateDecision(c, w, process.kind, prepared, observed);
    case CheckBound(b) => OpenDecision(c, w, process.kind, b, observed);
    case Recover(_, attempt) => RecoverIsDecision(c, w, attempt, observed);
    case ResolveDelete(b, _) => DeleteVerdict(c, w, b, observed);
    case ConfirmDeleted(b, _) => DeleteVerdict(c, w, b, observed);
    case RecoverDelete(b) => DeleteVerdict(c, w, b, observed);
  }

  lemma AttemptAfterRead(c: Config, process: Process, read: Result<LedgerState, StoreError>)
    requires ReadsLedger(process.pc)
    ensures AttemptOk(AfterRead(c, process, read))
  {
  }

  lemma AttemptAfterListing(c: Config, process: Process, observed: seq<ObservedVm>)
    requires ListsProvider(process.pc) && AttemptOk(process.pc)
    ensures AttemptOk(AfterListing(c, process, observed))
  {
    if process.pc.Recover? {
      RecoverLooksThroughFence(c, process.pc.attempt, observed);
    }
  }

  lemma AttemptStays(c: Config, w: World, w': World, step: Step, p: nat)
    requires Next(c, w, w', step) && p in w'.procs
    requires p in w.procs ==> AttemptOk(w.procs[p].pc)
    ensures AttemptOk(w'.procs[p].pc)
  {
    match step
    case ReadLedger(pid) => AttemptAfterRead(c, w.procs[pid], Reconstruct(w.log, c.sha, c.Intent()));
    case ListInstances(pid, observed) =>
      if pid == p {
        AttemptAfterListing(c, w.procs[pid], observed);
      }
    case _ =>
  }

  lemma {:induction false} AttemptsBounded(c: Config, worlds: seq<World>, steps: seq<Step>, i: nat, p: nat)
    requires Run(c, worlds, steps) && i < |worlds| && p in worlds[i].procs
    ensures AttemptOk(worlds[i].procs[p].pc)
  {
    if i > 0 {
      assert Next(c, worlds[i - 1], worlds[i - 1 + 1], steps[i - 1]);
      if p in worlds[i - 1].procs {
        AttemptsBounded(c, worlds, steps, i - 1, p);
      }
      AttemptStays(c, worlds[i - 1], worlds[i], steps[i - 1], p);
    }
  }

  /**
    Over every run, every listing leads exactly where the machines that exist call for; a listing
    that repeats a machine may make the process give up, and nothing else.
   */
  lemma ListingsDecide(c: Config, worlds: seq<World>, steps: seq<Step>, i: nat)
    requires Run(c, worlds, steps) && i < |steps| && steps[i].ListInstances?
    ensures var w, p := worlds[i], steps[i].pid;
            && p in w.procs && ListsProvider(w.procs[p].pc) && p in worlds[i + 1].procs
            && var pc, decision := worlds[i + 1].procs[p].pc, Decision(c, w, w.procs[p].pc);
               (pc == decision || pc == Done(Failed)) && (ListsOnce(steps[i].observed) ==> pc == decision)
  {
    RunInvariant(c, worlds, steps, i);
    assert Next(c, worlds[i], worlds[i + 1], steps[i]);
    var w, p := worlds[i], steps[i].pid;
    AttemptsBounded(c, worlds, steps, i, p);
    assert PcOk(c, w, p, w.procs[p].pc);
    ListingIsDecision(c, w, w.procs[p], steps[i].observed);
  }

  // ---------------------------------------------------------------- reads

  /** When a read makes a process give up. */
  ghost predicate ReadFails(process: Process, read: Result<LedgerState, StoreError>)
    requires ReadsLedger(process.pc)
  {
    || read.Err?
    || match process.pc
       case Start => if process.kind == Opening then Rank(read.value.phase) >= 4 else read.value.phase.CreatePrepared?
       case StoreRead(op) => !StartsFrom(op, read.value.phase)
       case StoreVerify(_, write, id, _) => read.value != LedgerState(Some(id), write.after)
       case CheckTerminal(b) => read.value.phase != Terminal(b.generation)
  }

  /** Where a session takes up a durable phase it finds. */
  ghost predicate TakesUp(kind: Kind, phase: Phase, pc: Pc) {
    match phase
    case Empty => if kind == Opening then pc == ListForCreate(None) else pc == Done(NoResourceCreated)
    case CreatePrepared(_) => kind == Opening && pc == ListForCreate(Some(1))
    case CreateDispatched(_) => pc == Recover(1, 0)
    case Bound(b) => if kind == Opening then pc == CheckBound(b) else pc == ResolveDelete(b, false)
    case DeletePrepared(b) => kind == Closing && pc == ResolveDelete(b, true)
    case DeleteDispatched(b) => kind == Closing && pc == RecoverDelete(b)
    case Terminal(_) => kind == Closing && pc == Done(AlreadyTerminal)
  }

  /** Where a session goes on from a durable phase it has just brought about. */
  ghost predicate GoesOn(kind: Kind, phase: Phase, at: nat, pc: Pc) {
    match phase
    case Empty => false
    case CreatePrepared(_) => pc == StoreRead(DispatchCreateOp(1))
    case CreateDispatched(g) => pc == CallCreate(g, at)
    case Bound(b) => pc == if kind == Opening then Done(Opened(b)) else ResolveDelete(b, false)
    case DeletePrepared(b) => pc == StoreRead(DispatchDeleteOp(b))
    case DeleteDispatched(b) => pc == CallDelete(b)
    case Terminal(g) => pc.CheckTerminal? && pc.binding.generation == g
  }

  lemma StartDecision(c: Config, w: World, kind: Kind)
    requires Inv(c, w)
    ensures var read, pc := Read(c, w), AfterRead(c, Process(kind, Start), Read(c, w));
            && (pc == Done(Failed) <==> ReadFails(Process(kind, Start), read))
            && (!ReadFails(Process(kind, Start), read) ==> TakesUp(kind, read.value.phase, pc))
  {
    if Read(c, w).Ok? {
      ReadFacts(c, w);
    }
  }

  lemma GuardDecision(c: Config, w: World, kind: Kind, op: StoreOp)
    requires Inv(c, w) && OpOk(c, w, op)
    ensures var read, pc := Read(c, w), AfterRead(c, Process(kind, StoreRead(op)), Read(c, w));
            && (ReadFails(Process(kind, StoreRead(op)), read) ==> pc == Done(Failed))
            && (pc == Done(Failed) || (read.Ok? && pc == StoreAppend(op, read.value.head, WriteFor(op))))
            && (!ReadFails(Process(kind, StoreRead(op)), read) && CheckArguments(op, c.Intent(), c.Intent()).Ok? ==>
                  pc != Done(Failed))
  {
    if Read(c, w).Ok? {
      AdmittedIff(op, Read(c, w).value.phase);
      if PlanWrite(op, Read(c, w).value.phase).Ok? {
        PlanIsWriteFor(op, Read(c, w).value.phase);
      }
    }
  }

  lemma VerifyDecision(c: Config, w: World, kind: Kind, op: StoreOp, id: U64, at: nat)
    requires OpOk(c, w, op)
    ensures var process := Process(kind, StoreVerify(op, WriteFor(op), id, at));
            var read, pc := Read(c, w), AfterRead(c, process, Read(c, w));
            && (pc == Done(Failed) <==> ReadFails(process, read))
            && (!ReadFails(process, read) ==> GoesOn(kind, read.value.phase, at, pc))
  {
  }

  /**
    Over every run, every read leads exactly where the durable phase calls for: a session takes
    up the phase it finds, an operation is written exactly from the phase it starts from, and a
    session goes on from what it wrote exactly when it reads that back as the head.
   */
  lemma ReadsDecide(c: Config, worlds: seq<World>, steps: seq<Step>, i: nat)
    requires Run(c, worlds, steps) && i < |steps| && steps[i].ReadLedger?
    ensures var w, p := worlds[i], steps[i].pid;
            && p in w.procs && ReadsLedger(w.procs[p].pc) && p in worlds[i + 1].procs
            && var read, pc, pc' := Read(c, w), w.procs[p].pc, worlds[i + 1].procs[p].pc;
               && (ReadFails(w.procs[p], read) ==> pc' == Done(Failed))
               && (!ReadFails(w.procs[p], read) ==>
                     match pc
                     case Start => TakesUp(w.procs[p].kind, read.value.phase, pc')
                     case StoreRead(op) =>
                       if CheckArguments(op, c.Intent(), c.Intent()).Err? then pc' == Done(Failed)
                       else IsSessionOp(op) && pc' == StoreAppend(op, read.value.head, WriteFor(op))
                     case StoreVerify(_, _, _, at) => GoesOn(w.procs[p].kind, read.value.phase, at, pc')
                     case CheckTerminal(_) => pc' == Done(DeletedAndTerminal))
  {
    RunInvariant(c, worlds, steps, i);
    assert Next(c, worlds[i], worlds[i + 1], steps[i]);
    var w, p := worlds[i], steps[i].pid;
    assert PcOk(c, w, p, w.procs[p].pc);
    ReadIsDecision(c, w, w.procs[p]);
  }

  lemma ReadIsDecision(c: Config, w: World, process: Process)
    requires Inv(c, w) && ReadsLedger(process.pc) && exists p :: PcOk(c, w, p, process.pc)
    ensures var read, pc' := Read(c, w), AfterRead(c, process, Read(c, w));
            && (ReadFails(process, read) ==> pc' == Done(Failed))
            && (!ReadFails(process, read) ==>
                  match process.pc
                  case Start => TakesUp(process.kind, read.value.phase, pc')
                  case StoreRead(op) =>
                    if CheckArguments(op, c.Intent(), c.Intent()).Err? then pc' == Done(Failed)
                    else OpOk(c, w, op) && pc' == StoreAppend(op, read.value.head, WriteFor(op))
                  case StoreVerify(_, _, _, at) => GoesOn(process.kind, read.value.phase, at, pc')
                  case CheckTerminal(_) => pc' == Done(DeletedAndTerminal))
  {
    match process.pc
    case Start => StartDecision(c, w, process.kind);
    case StoreRead(op) => GuardDecision(c, w, process.kind, op);
    case StoreVerify(op, _, id, at) => VerifyDecision(c, w, process.kind, op, id, at);
    case CheckTerminal(_) =>
  }

  // ---------------------------------------------------------------- calls

  /**
    What a process makes of a call: a call that is reported to have failed ends it, whatever its
    effect was; a create that came back is followed by looking for the machine, a delete by
    looking whether it is gone, and an append, of exactly the promised record, by reading it back.
   */
  lemma CallsDecide(c: Config, worlds: seq<World>, steps: seq<Step>, i: nat)
    requires Run(c, worlds, steps) && i < |steps|
    requires steps[i].CreateVm? || steps[i].DeleteVm? || steps[i].Append?
    ensures var w, w', p := worlds[i], worlds[i + 1], steps[i].pid;
            && p in w.procs && p in w'.procs
            && match steps[i]
               case CreateVm(_, _, ok) =>
                 && |w'.creates| == |w.creates| + 1 && w'.log == w.log
                 && w'.procs[p].pc == if ok then Recover(1, 0) else Done(Failed)
               case DeleteVm(_, ok) =>
                 && w.procs[p].pc.CallDelete? && w'.log == w.log && |w'.deletes| == |w.deletes| + 1
                 && w'.procs[p].pc == if ok then ConfirmDeleted(w.procs[p].pc.binding, 0) else Done(Failed)
               case Append(_, id, outcome) =>
                 && w.procs[p].pc.StoreAppend? && IsSessionOp(w.procs[p].pc.op)
                 && var op, head := w.procs[p].pc.op, w.procs[p].pc.head;
                    && w'.log == w.log + (if outcome == FailedBefore then []
                                          else [NewRecord(id, c.sha, c.Intent(), head, WriteFor(op))])
                    && w'.procs[p].pc == if outcome == Appended then StoreVerify(op, WriteFor(op), id, |w.log|)
                                         else Done(Failed)
  {
    RunInvariant(c, worlds, steps, i);
    assert Next(c, worlds[i], worlds[i + 1], steps[i]);
    var w, p := worlds[i], steps[i].pid;
    assert PcOk(c, w, p, w.procs[p].pc);
    if steps[i].CreateVm? {
      FencedGeneration(c, worlds, steps, i, p);
    }
  }

  /** Whoever is about to create does so for the first generation. */
  lemma {:induction false} FencedGeneration(c: Config, worlds: seq<World>, steps: seq<Step>, i: nat, p: nat)
    requires Run(c, worlds, steps) && i < |worlds| && p in worlds[i].procs
    ensures GenerationOk(worlds[i].procs[p].pc)
  {
    if i > 0 {
      assert Next(c, worlds[i - 1], worlds[i - 1 + 1], steps[i - 1]);
      if p in worlds[i - 1].procs {
        FencedGeneration(c, worlds, steps, i - 1, p);
      }
      GenerationStays(c, worlds[i - 1], worlds[i], steps[i - 1], p);
    }
  }

  predicate GenerationOk(pc: Pc) {
    match pc
    case CallCreate(g, _) => g == 1
    case StoreRead(op) => op.DispatchCreateOp? ==> op.generation == 1
    case StoreAppend(op, _, _) => op.DispatchCreateOp? ==> op.generation == 1
    case StoreVerify(op, _, _, _) => op.DispatchCreateOp? ==> op.generation == 1
    case _ => true
  }

  lemma GenerationAfterRead(c: Config, process: Process, read: Result<LedgerState, StoreError>)
    requires ReadsLedger(process.pc) && GenerationOk(process.pc)
    ensures GenerationOk(AfterRead(c, process, read))
  {
  }

  lemma GenerationAfterListing(c: Config, process: Process, observed: seq<ObservedVm>)
    requires ListsProvider(process.pc)
    ensures GenerationOk(AfterListing(c, process, observed))
  {
  }

  lemma GenerationStays(c: Config, w: World, w': World, step: Step, p: nat)
    requires Next(c, w, w', step) && p in w'.procs
    requires p in w.procs ==> GenerationOk(w.procs[p].pc)
    ensures GenerationOk(w'.procs[p].pc)
  {
    match step
    case ReadLedger(pid) =>
      if pid == p {
        GenerationAfterRead(c, w.procs[pid], Reconstruct(w.log, c.sha, c.Intent()));
      }
    case ListInstances(pid, observed) =>
      if pid == p {
        GenerationAfterListing(c, w.procs[pid], observed);
      }
    case _ =>
  }

  // ---------------------------------------------------------------- what is reported is true

  /** Step `i` is the one that ended process `p` with this outcome. */
  ghost predicate Reports(worlds: seq<World>, i: int, p: nat, outcome: Outcome) {
    && 0 <= i < |worlds| - 1
    && p in worlds[i + 1].procs && worlds[i + 1].procs[p].pc == Done(outcome)
    && (p in worlds[i].procs ==> !worlds[i].procs[p].pc.Done?)
  }

  lemma ReportingStep(c: Config, worlds: seq<World>, steps: seq<Step>, i: nat, p: nat, outcome: Outcome)
    requires Run(c, worlds, steps) && Reports(worlds, i, p, outcome) && outcome != Failed
    ensures i < |steps| && (steps[i] == ReadLedger(p) || (steps[i].ListInstances? && steps[i].pid == p))
  {
    assert Next(c, worlds[i], worlds[i + 1], steps[i]);
  }

  /**
    An open that is reported is open: either the process looked and the machine was there, with
    exactly the session's ownership and the wanted specification, or it bound the machine itself
    and read the ledger back as bound to it.
   */
  lemma OpenedIsTrue(c: Config, worlds: seq<World>, steps: seq<Step>, i: nat, p: nat, b: VmBinding)
    requires Run(c, worlds, steps) && Reports(worlds, i, p, Opened(b))
    ensures i < |steps| && (steps[i] == ReadLedger(p) || (steps[i].ListInstances? && steps[i].pid == p))
    ensures steps[i].ListInstances? ==>
              && b.providerId in worlds[i].vms
              && worlds[i].vms[b.providerId].ownership == Exact(ExactOwnership(c.Intent(), b.generation))
              && worlds[i].vms[b.providerId].specFingerprint == c.specFingerprint
    ensures steps[i].ReadLedger? ==> Read(c, worlds[i]).Ok? && Read(c, worlds[i]).value.phase == Bound(b)
  {
    ReportingStep(c, worlds, steps, i, p, Opened(b));
    RunInvariant(c, worlds, steps, i);
    var w := worlds[i];
    assert Next(c, worlds[i], worlds[i + 1], steps[i]);
    assert PcOk(c, w, p, w.procs[p].pc);
    if steps[i].ListInstances? {
      ListingsDecide(c, worlds, steps, i);
    } else {
      ReadsDecide(c, worlds, steps, i);
    }
  }

  /**
    A close that is reported is closed: no resource was created exactly means an empty ledger, no
    machine and no create call; a terminal session means a terminal ledger and no machine.
   */
  lemma ClosedIsTrue(c: Config, worlds: seq<World>, steps: seq<Step>, i: nat, p: nat, outcome: Outcome)
    requires Run(c, worlds, steps) && Reports(worlds, i, p, outcome) && outcome != Failed && !outcome.Opened?
    ensures Read(c, worlds[i]).Ok? && OwnedVms(c, worlds[i]) == {}
    ensures outcome == NoResourceCreated <==> Read(c, worlds[i]).value.phase == Empty
    ensures outcome == NoResourceCreated ==> worlds[i].creates == []
    ensures outcome != NoResourceCreated ==> Read(c, worlds[i]).value.phase.Terminal?
  {
    ReportingStep(c, worlds, steps, i, p, outcome);
    RunInvariant(c, worlds, steps, i);
    var w := worlds[i];
    assert Next(c, worlds[i], worlds[i + 1], steps[i]);
    assert PcOk(c, w, p, w.procs[p].pc);
    if steps[i].ListInstances? {
      ListingsDecide(c, worlds, steps, i);
      assert false;
    } else {
      ReadsDecide(c, worlds, steps, i);
      PhaseAgrees(c, w);
    }
  }
}
