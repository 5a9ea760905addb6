/**
  How sessions can end. Safety alone would be met by a protocol that never finishes; here every
  quiet world of every run is classified exactly by whether some continuation can still bring
  the ledger to its terminal phase.
 */
module SessionEndings {
  import opened Wrappers
  import opened Lifecycle
  import opened Ledger
  import opened LedgerTheory
  import opened BindingStore
  import opened BindingStoreTheory
  import opened Session
  import opened SessionTheory
  import opened SessionProgress

  // ---------------------------------------------------------------- the machine vanished

  /** Operations that come before any deletion. */
  predicate EarlyOp(op: StoreOp) {
    op.PrepareCreateOp? || op.DispatchCreateOp? || (op.SwapOp? && op.expected.None?)
  }

  predicate EarlyPc(pc: Pc) {
    match pc
    case StoreRead(op) => EarlyOp(op)
    case StoreAppend(op, _, _) => EarlyOp(op)
    case StoreVerify(op, _, _, _) => EarlyOp(op)
    case CallDelete(_) => false
    case ConfirmDeleted(_, _) => false
    case RecoverDelete(_) => false
    case _ => true
  }

  predicate NoDeleteDispatched(c: Config, log: seq<Record>) {
    forall i | 0 <= i < |log| && log[i].payload.intentId == c.Intent().id ::
      log[i].payload.transition !in {DispatchDelete, Clear}
  }

  /** The session's machine is gone, no delete was dispatched and no process is about to dispatch one. */
  ghost predicate Stuck(c: Config, w: World) {
    && Inv(c, w)
    && w.born != {} && w.born !! w.vms.Keys
    && NoDeleteDispatched(c, w.log)
    && forall p | p in w.procs :: EarlyPc(w.procs[p].pc)
  }

  lemma StuckReads(c: Config, w: World)
    requires Stuck(c, w) && Read(c, w).Ok?
    ensures !Read(c, w).value.phase.DeleteDispatched? && !Read(c, w).value.phase.Terminal?
  {
    ReadFacts(c, w);
  }

  lemma StuckListing(c: Config, w: World, pid: nat, observed: seq<ObservedVm>)
    requires Stuck(c, w) && pid in w.procs && ListsProvider(w.procs[pid].pc) && IsListing(observed, w.vms)
    ensures EarlyPc(AfterListing(c, w.procs[pid], observed))
  {
    assert EarlyPc(w.procs[pid].pc) && PcOk(c, w, pid, w.procs[pid].pc);
    match w.procs[pid].pc
    case ResolveDelete(b, _) => AuthorizedTargetIsBoundVm(b, observed, b.generation);
    case _ =>
  }

  lemma StuckRead(c: Config, w: World, pid: nat)
    requires Stuck(c, w) && pid in w.procs && ReadsLedger(w.procs[pid].pc)
    ensures EarlyPc(AfterRead(c, w.procs[pid], Read(c, w)))
  {
    assert EarlyPc(w.procs[pid].pc);
    if Read(c, w).Ok? {
      StuckReads(c, w);
    }
  }

  /** One process moves to an early point; the ledger grows by at most an early record. */
  lemma StuckMove(c: Config, w: World, w': World, pid: nat)
    requires Stuck(c, w) && Inv(c, w')
    requires w'.born == w.born && w'.vms == w.vms && w.log <= w'.log && |w'.log| <= |w.log| + 1
    requires |w'.log| > |w.log| && w'.log[|w.log|].payload.intentId == c.Intent().id ==>
               w'.log[|w.log|].payload.transition !in {DispatchDelete, Clear}
    requires pid in w'.procs ==> EarlyPc(w'.procs[pid].pc)
    requires forall p | p in w'.procs && p != pid :: p in w.procs && w'.procs[p] == w.procs[p]
    ensures Stuck(c, w')
  {
    forall i | 0 <= i < |w'.log| && w'.log[i].payload.intentId == c.Intent().id
      ensures w'.log[i].payload.transition !in {DispatchDelete, Clear}
    {
      assert i < |w.log| ==> w'.log[i] == w.log[i];
    }
  }

  lemma StuckEnvironment(c: Config, w: World, w': World, step: Step)
    requires Stuck(c, w) && Inv(c, w') && Next(c, w, w', step) && IsProviderStep(step)
    ensures Stuck(c, w')
  {
    assert w'.procs == w.procs;
    assert step.Materialise? ==> |w.born| == 0;
  }

  lemma StuckAppend(c: Config, w: World, w': World, pid: nat, newId: U64, outcome: AppendOutcome)
    requires Stuck(c, w) && Inv(c, w') && Next(c, w, w', Append(pid, newId, outcome))
    ensures Stuck(c, w')
  {
    assert EarlyPc(w.procs[pid].pc) && PcOk(c, w, pid, w.procs[pid].pc);
    StuckMove(c, w, w', pid);
  }

  lemma StuckProcess(c: Config, w: World, w': World, step: Step, pid: nat)
    requires Stuck(c, w) && Inv(c, w') && Next(c, w, w', step)
    requires step == ReadLedger(pid) || (step.ListInstances? && step.pid == pid) || (step.CreateVm? && step.pid == pid)
    ensures Stuck(c, w')
  {
    match step {
      case ReadLedger(_) => StuckRead(c, w, pid);
      case ListInstances(_, observed) => StuckListing(c, w, pid, observed);
      case CreateVm(_, _, _) =>
    }
    StuckMove(c, w, w', pid);
  }

  lemma StuckStays(c: Config, w: World, w': World, step: Step)
    requires Stuck(c, w) && Next(c, w, w', step)
    ensures Stuck(c, w')
  {
    StepPreserves(c, w, w', step);
    match step
    case Spawn(pid, _) => StuckMove(c, w, w', pid);
    case Crash(pid) => StuckMove(c, w, w', pid);
    case ReadLedger(pid) => StuckProcess(c, w, w', step, pid);
    case ListInstances(pid, _) => StuckProcess(c, w, w', step, pid);
    case CreateVm(pid, _, _) => StuckProcess(c, w, w', step, pid);
    case Append(pid, newId, outcome) => StuckAppend(c, w, w', pid, newId, outcome);
    case DeleteVm(_, _) => assert false;
    case _ => StuckEnvironment(c, w, w', step);
  }

  lemma {:induction false} StuckForever(c: Config, worlds: seq<World>, steps: seq<Step>, i: nat)
    requires Path(c, worlds, steps) && Stuck(c, worlds[0]) && i < |worlds|
    ensures Stuck(c, worlds[i])
  {
    if i > 0 {
      StuckForever(c, worlds, steps, i - 1);
      assert Next(c, worlds[i - 1], worlds[i - 1 + 1], steps[i - 1]);
      StuckStays(c, worlds[i - 1], worlds[i], steps[i - 1]);
    }
  }

  ghost predicate AllDone(w: World) {
    forall p | p in w.procs :: w.procs[p].pc.Done?
  }

  lemma EarlyWord(phase: Phase, k: nat)
    requires Rank(phase) <= 4 && k < |PhaseWord(phase)|
    ensures PhaseWord(phase)[k] !in {DispatchDelete, Clear}
  {
  }

  lemma UndispatchedLedger(c: Config, w: World)
    requires Read(c, w).Ok? && Rank(Read(c, w).value.phase) <= 4
    ensures NoDeleteDispatched(c, w.log)
  {
    ReconstructedChain(w.log, c.sha, c.Intent());
    var chain := Chain(w.log, c.sha, c.Intent());
    ReplayDeterminesWord(chain, c.Intent());
    forall i | 0 <= i < |w.log| && w.log[i].payload.intentId == c.Intent().id
      ensures w.log[i].payload.transition !in {DispatchDelete, Clear}
    {
      assert w.log[i] in chain;
      var k :| 0 <= k < |chain| && chain[k] == w.log[i];
      EarlyWord(Read(c, w).value.phase, k);
      assert Word(chain)[k] == w.log[i].payload.transition;
    }
  }

  lemma GoneIsStuck(c: Config, w: World)
    requires Inv(c, w) && AllDone(w) && Read(c, w).Ok? && HeldBinding(Read(c, w).value.phase).Some?
    requires !Read(c, w).value.phase.DeleteDispatched?
    requires HeldBinding(Read(c, w).value.phase).value.providerId !in w.vms
    ensures Stuck(c, w)
  {
    ReadFacts(c, w);
    UndispatchedLedger(c, w);
    var id := HeldBinding(Read(c, w).value.phase).value.providerId;
    forall x | x in w.born ensures x !in w.vms {
      BornSingleton(c, w, x, id);
    }
  }

  // ---------------------------------------------------------------- no machine can be bound

  predicate IsCreateOp(op: StoreOp) {
    op.PrepareCreateOp? || op.DispatchCreateOp?
  }

  /** A bind the store refuses: the machine's id is not a canonical UUID. */
  predicate IsRefusedBind(op: StoreOp) {
    op.SwapOp? && op.expected.None? && op.replacement.Some? && !CanonicalUuid(op.replacement.value.providerId)
  }

  predicate UnboundPc(pc: Pc) {
    match pc
    case Start => true
    case ListForCreate(_) => true
    case CallCreate(_, _) => true
    case Recover(_, _) => true
    case Done(_) => true
    case StoreRead(op) => IsCreateOp(op) || IsRefusedBind(op)
    case StoreAppend(op, _, _) => IsCreateOp(op)
    case StoreVerify(op, _, _, _) => IsCreateOp(op)
    case _ => false
  }

  predicate OnlyCreateRecords(c: Config, log: seq<Record>) {
    forall i | 0 <= i < |log| && log[i].payload.intentId == c.Intent().id ::
      log[i].payload.transition in {PrepareCreate, DispatchCreate}
  }

  /** Nothing was bound, no process is past its create, and no machine that exists could be bound. */
  ghost predicate Unbound(c: Config, w: World) {
    && Inv(c, w)
    && OnlyCreateRecords(c, w.log)
    && (forall p | p in w.procs :: UnboundPc(w.procs[p].pc))
    && (forall id | id in OwnedVms(c, w) :: !CanonicalUuid(id))
  }

  lemma BindInWord(phase: Phase)
    requires Rank(phase) >= 3
    ensures |PhaseWord(phase)| > 2 && PhaseWord(phase)[2] == Bind
  {
  }

  lemma UnboundReads(c: Config, w: World)
    requires OnlyCreateRecords(c, w.log) && Read(c, w).Ok?
    ensures Rank(Read(c, w).value.phase) <= 2
  {
    ReconstructedChain(w.log, c.sha, c.Intent());
    var chain := Chain(w.log, c.sha, c.Intent());
    ReplayDeterminesWord(chain, c.Intent());
    if |chain| > 2 {
      assert chain[2] in chain;
      assert Word(chain)[2] == chain[2].payload.transition;
    }
    if Rank(Read(c, w).value.phase) >= 3 {
      BindInWord(Read(c, w).value.phase);
    }
  }

  lemma UnboundRead(c: Config, w: World, pid: nat)
    requires Unbound(c, w) && pid in w.procs && ReadsLedger(w.procs[pid].pc)
    ensures UnboundPc(AfterRead(c, w.procs[pid], Read(c, w)))
  {
    assert UnboundPc(w.procs[pid].pc);
    if Read(c, w).Ok? {
      UnboundReads(c, w);
    }
  }

  lemma UnboundListing(c: Config, w: World, pid: nat, observed: seq<ObservedVm>)
    requires Unbound(c, w) && pid in w.procs && ListsProvider(w.procs[pid].pc) && IsListing(observed, w.vms)
    ensures UnboundPc(AfterListing(c, w.procs[pid], observed))
  {
    assert UnboundPc(w.procs[pid].pc);
    match w.procs[pid].pc
    case Recover(g, attempt) => RecoversNothing(c, w, g, attempt, observed);
    case _ =>
  }

  lemma RecoversNothing(c: Config, w: World, g: Generation, attempt: nat, observed: seq<ObservedVm>)
    requires IsListing(observed, w.vms) && forall id | id in OwnedVms(c, w) :: !CanonicalUuid(id)
    ensures var pc := AfterRecoverListing(c, g, attempt, observed);
            pc.Done? || pc.Recover? || (pc.StoreRead? && IsRefusedBind(pc.op))
  {
    var fence := CreateFence(c.Intent(), g, c.Desired());
    if fence.Ok? {
      RecoveredVmMatchesFence(fence.value, observed);
      var r := RecoverDispatchedCreate(fence.value, observed);
      if r.Ok? && r.value.Recovered? {
        var vm :| vm in observed && vm.providerId == r.value.binding.providerId
                  && vm.ownership == Exact(ExactOwnership(c.Intent(), g));
        assert vm.providerId in OwnedVms(c, w);
      }
    }
  }

  /** One process moves to such a point; the ledger grows by at most a create record. */
  lemma UnboundMove(c: Config, w: World, w': World, pid: nat)
    requires Unbound(c, w) && Inv(c, w')
    requires w'.vms == w.vms && w.log <= w'.log && |w'.log| <= |w.log| + 1
    requires |w'.log| > |w.log| && w'.log[|w.log|].payload.intentId == c.Intent().id ==>
               w'.log[|w.log|].payload.transition in {PrepareCreate, DispatchCreate}
    requires pid in w'.procs ==> UnboundPc(w'.procs[pid].pc)
    requires forall p | p in w'.procs && p != pid :: p in w.procs && w'.procs[p] == w.procs[p]
    ensures Unbound(c, w')
  {
    forall i | 0 <= i < |w'.log| && w'.log[i].payload.intentId == c.Intent().id
      ensures w'.log[i].payload.transition in {PrepareCreate, DispatchCreate}
    {
      assert i < |w.log| ==> w'.log[i] == w.log[i];
    }
    assert OwnedVms(c, w') == OwnedVms(c, w);
  }

  lemma UnboundProcess(c: Config, w: World, w': World, step: Step, pid: nat)
    requires Unbound(c, w) && Inv(c, w') && Next(c, w, w', step)
    requires step == ReadLedger(pid) || (step.ListInstances? && step.pid == pid) || (step.CreateVm? && step.pid == pid)
    ensures Unbound(c, w')
  {
    match step {
      case ReadLedger(_) => UnboundRead(c, w, pid);
      case ListInstances(_, observed) => UnboundListing(c, w, pid, observed);
      case CreateVm(_, _, _) => assert UnboundPc(w'.procs[pid].pc);
    }
    UnboundMove(c, w, w', pid);
  }

  lemma UnboundAppend(c: Config, w: World, w': World, pid: nat, newId: U64, outcome: AppendOutcome)
    requires Unbound(c, w) && Inv(c, w') && Next(c, w, w', Append(pid, newId, outcome))
    ensures Unbound(c, w')
  {
    assert UnboundPc(w.procs[pid].pc) && PcOk(c, w, pid, w.procs[pid].pc);
    UnboundMove(c, w, w', pid);
  }

  lemma UnboundEnvironment(c: Config, w: World, w': World, step: Step)
    requires Unbound(c, w) && Inv(c, w') && Next(c, w, w', step) && IsProviderStep(step)
    requires step.Materialise? ==> !CanonicalUuid(step.id)
    ensures Unbound(c, w')
  {
    assert w'.procs == w.procs;
    forall id | id in OwnedVms(c, w') ensures !CanonicalUuid(id) {
      assert id in OwnedVms(c, w) || (step.Materialise? && id == step.id);
    }
  }

  lemma UnboundStays(c: Config, w: World, w': World, step: Step)
    requires Unbound(c, w) && Next(c, w, w', step)
    requires step.Materialise? ==> !CanonicalUuid(step.id)
    ensures Unbound(c, w')
  {
    StepPreserves(c, w, w', step);
    match step
    case Spawn(pid, _) => UnboundMove(c, w, w', pid);
    case Crash(pid) => UnboundMove(c, w, w', pid);
    case ReadLedger(pid) => UnboundProcess(c, w, w', step, pid);
    case ListInstances(pid, _) => UnboundProcess(c, w, w', step, pid);
    case CreateVm(pid, _, _) => UnboundProcess(c, w, w', step, pid);
    case Append(pid, newId, outcome) => UnboundAppend(c, w, w', pid, newId, outcome);
    case DeleteVm(_, _) => assert false;
    case _ => UnboundEnvironment(c, w, w', step);
  }

  /** Every canonical id has been used, so no machine to come can be bound. */
  ghost predicate IdsExhausted(w: World) {
    forall id | CanonicalUuid(id) :: id in w.used
  }

  lemma {:induction false} UnboundForever(c: Config, worlds: seq<World>, steps: seq<Step>, i: nat)
    requires Path(c, worlds, steps) && Unbound(c, worlds[0]) && IdsExhausted(worlds[0]) && i < |worlds|
    ensures Unbound(c, worlds[i]) && IdsExhausted(worlds[i])
  {
    if i > 0 {
      UnboundForever(c, worlds, steps, i - 1);
      assert Next(c, worlds[i - 1], worlds[i - 1 + 1], steps[i - 1]);
      UnboundStays(c, worlds[i - 1], worlds[i], steps[i - 1]);
    }
  }

  // ---------------------------------------------------------------- the create was lost

  /** Points of a process that will not write and not create. */
  predicate WaitingPc(pc: Pc) {
    pc.Start? || pc.Recover? || pc.Done? || (pc.StoreRead? && IsRefusedBind(pc.op))
  }

  /** The create was dispatched, nothing is on its way, and no process can do anything but wait. */
  ghost predicate Stranded(c: Config, w: World) {
    && Unbound(c, w)
    && w.inflight == 0
    && Reconstruct(OwnRecords(w.log, c.Intent().id), c.sha, c.Intent()).Ok?
    && Reconstruct(OwnRecords(w.log, c.Intent().id), c.sha, c.Intent()).value.phase.CreateDispatched?
    && forall p | p in w.procs :: WaitingPc(w.procs[p].pc)
  }

  lemma StrandedReads(c: Config, w: World)
    requires Stranded(c, w)
    ensures Read(c, w).Ok? ==> Read(c, w).value.phase.CreateDispatched?
  {
    NamespaceNonInterference(w.log, c.sha, c.Intent());
  }

  lemma StrandedRead(c: Config, w: World, pid: nat)
    requires Stranded(c, w) && pid in w.procs && ReadsLedger(w.procs[pid].pc)
    ensures WaitingPc(AfterRead(c, w.procs[pid], Read(c, w)))
  {
    assert WaitingPc(w.procs[pid].pc);
    StrandedReads(c, w);
  }

  lemma StrandedListing(c: Config, w: World, pid: nat, observed: seq<ObservedVm>)
    requires Stranded(c, w) && pid in w.procs && ListsProvider(w.procs[pid].pc) && IsListing(observed, w.vms)
    ensures WaitingPc(AfterListing(c, w.procs[pid], observed))
  {
    assert WaitingPc(w.procs[pid].pc);
    RecoversNothing(c, w, w.procs[pid].pc.generation, w.procs[pid].pc.attempt, observed);
  }

  lemma ForeignIsNotOwn(log: seq<Record>, r: Record, id: string)
    ensures r.payload.intentId != id ==> OwnRecords(log + [r], id) == OwnRecords(log, id)
  {
    assert (log + [r])[..|log|] == log;
    assert OwnRecords(log, id) + [] == OwnRecords(log, id);
  }

  lemma StrandedProcs(c: Config, w: World, w': World, step: Step)
    requires Stranded(c, w) && Next(c, w, w', step)
    ensures forall p | p in w'.procs :: WaitingPc(w'.procs[p].pc)
  {
    match step
    case ReadLedger(pid) => StrandedRead(c, w, pid);
    case ListInstances(pid, observed) => StrandedListing(c, w, pid, observed);
    case Append(_, _, _) => assert false;
    case CreateVm(_, _, _) => assert false;
    case DeleteVm(_, _) => assert false;
    case _ =>
  }

  lemma StrandedStays(c: Config, w: World, w': World, step: Step)
    requires Stranded(c, w) && Next(c, w, w', step)
    ensures Stranded(c, w')
  {
    UnboundStays(c, w, w', step);
    StrandedProcs(c, w, w', step);
    if step.ForeignRecord? {
      ForeignIsNotOwn(w.log, step.record, c.Intent().id);
    }
  }

  lemma {:induction false} StrandedForever(c: Config, worlds: seq<World>, steps: seq<Step>, i: nat)
    requires Path(c, worlds, steps) && Stranded(c, worlds[0]) && i < |worlds|
    ensures Stranded(c, worlds[i])
  {
    if i > 0 {
      StrandedForever(c, worlds, steps, i - 1);
      assert Next(c, worlds[i - 1], worlds[i - 1 + 1], steps[i - 1]);
      StrandedStays(c, worlds[i - 1], worlds[i], steps[i - 1]);
    }
  }

  // ---------------------------------------------------------------- the ledger is unreadable

  ghost predicate Unreadable(c: Config, w: World) {
    Read(c, w).Err? && forall p | p in w.procs :: w.procs[p].pc.Start? || w.procs[p].pc.Done?
  }

  lemma ForeignDoesNotRepair(c: Config, log: seq<Record>, r: Record)
    requires Reconstruct(log, c.sha, c.Intent()).Err? && r.payload.intentId != c.Intent().id
    ensures Reconstruct(log + [r], c.sha, c.Intent()).Err?
  {
    assert (log + [r])[..|log|] == log;
  }

  lemma UnreadableStays(c: Config, w: World, w': World, step: Step)
    requires Unreadable(c, w) && Next(c, w, w', step)
    ensures Unreadable(c, w')
  {
    if step.ForeignRecord? {
      ForeignDoesNotRepair(c, w.log, step.record);
    }
  }

  lemma PathStep(c: Config, worlds: seq<World>, steps: seq<Step>, i: nat)
    requires Path(c, worlds, steps) && i < |steps|
    ensures Next(c, worlds[i], worlds[i + 1], steps[i])
  {
  }

  lemma {:induction false} UnreadableForever(c: Config, worlds: seq<World>, steps: seq<Step>, i: nat)
    requires Path(c, worlds, steps) && Unreadable(c, worlds[0]) && i < |worlds|
    ensures Unreadable(c, worlds[i])
  {
    if i > 0 {
      UnreadableForever(c, worlds, steps, i - 1);
      PathStep(c, worlds, steps, i - 1);
      UnreadableStays(c, worlds[i - 1], worlds[i], steps[i - 1]);
    }
  }

  // ---------------------------------------------------------------- helping a session along

  function Kept(vms: map<string, Vm>, keep: set<string>): map<string, Vm> {
    map x | x in vms && x in keep :: vms[x]
  }

  /** The provider may lose every machine but the given ones. */
  lemma {:induction false} ClearOthers(c: Config, start: World, w: World, keep: set<string>) returns (w': World)
    requires Reaches(c, start, w)
    ensures Reaches(c, start, w') && w' == w.(vms := Kept(w.vms, keep))
    decreases w.vms.Keys - keep
  {
    if x :| x in w.vms && x !in keep {
      var fewer := w.(vms := w.vms - {x});
      ReachStep(c, start, w, fewer, RemoveVm(x));
      assert Kept(fewer.vms, keep) == Kept(w.vms, keep);
      assert w.vms.Keys - keep == (fewer.vms.Keys - keep) + {x};
      w' := ClearOthers(c, start, fewer, keep);
    } else {
      w' := w;
      assert Kept(w.vms, keep) == w.vms;
    }
  }

  lemma {:induction false} FreshPid(pids: set<nat>) returns (pid: nat)
    ensures forall p | p in pids :: p < pid
  {
    if p :| p in pids {
      var below := FreshPid(pids - {p});
      pid := if p < below then below else p + 1;
      assert forall q | q in pids :: q == p || q in pids - {p};
    } else {
      pid := 0;
    }
  }

  ghost predicate HasUnusedId(w: World) {
    exists id :: CanonicalUuid(id) && id !in w.used
  }

  ghost predicate HasBindableVm(c: Config, w: World) {
    exists id :: id in OwnedVms(c, w) && CanonicalUuid(id)
  }

  /** What decides whether a quiet session can still reach its terminal phase. */
  ghost predicate CanStillClose(c: Config, w: World) {
    && Read(c, w).Ok?
    && match Read(c, w).value.phase
       case Empty => HasUnusedId(w)
       case CreatePrepared(_) => HasUnusedId(w)
       case CreateDispatched(_) => HasBindableVm(c, w) || (w.inflight > 0 && HasUnusedId(w))
       case Bound(b) => b.providerId in w.vms
       case DeletePrepared(b) => b.providerId in w.vms
       case DeleteDispatched(_) => true
       case Terminal(_) => true
  }

  /** Some continuation leads to a world whose ledger reads Terminal. */
  ghost predicate Closable(c: Config, w: World) {
    exists w' :: Reaches(c, w, w') && Ended(c, w')
  }

  ghost predicate Ended(c: Config, w: World) {
    Read(c, w).Ok? && Read(c, w).value.phase.Terminal?
  }

  /** Once its machine is bound and there, a session can be closed. */
  lemma OpenedCanBeClosed(c: Config, w: World, bound: World, id: string, top: U64)
    requires Inv(c, w) && Reaches(c, w, bound) && RoomFor(bound.log, top, 2)
    requires Read(c, bound).Ok? && Read(c, bound).value.phase == Bound(WantedBinding(c, id)) && id in bound.vms
    ensures Closable(c, w)
  {
    ReachedInv(c, w, bound);
    var pid := FreshPid(bound.procs.Keys);
    var closed := CanBeClosed(c, bound, pid, top);
    ReachOn(c, w, bound, closed);
    assert Ended(c, closed);
  }

  lemma OpenThenClose(c: Config, w: World, ready: World, id: string, top: U64)
    requires Inv(c, w) && Reaches(c, w, ready) && RoomFor(ready.log, top, 5) && Openable(c, ready, id)
    ensures Closable(c, w)
  {
    ReachedInv(c, w, ready);
    var pid := FreshPid(ready.procs.Keys);
    var bound := CanBeOpened(c, ready, pid, id, top);
    ReachOn(c, w, ready, bound);
    assert id in OwnedVms(c, bound);
    OpenedCanBeClosed(c, w, bound, id, top + 3);
  }

  lemma UnopenedIsClosable(c: Config, w: World, top: U64)
    requires Inv(c, w) && RoomFor(w.log, top, 5) && Read(c, w).Ok? && Rank(Read(c, w).value.phase) < 2 && HasUnusedId(w)
    ensures Closable(c, w)
  {
    var id :| CanonicalUuid(id) && id !in w.used;
    ReachSelf(c, w);
    var ready := ClearOthers(c, w, w, {});
    assert ready.vms == map[];
    OpenThenClose(c, w, ready, id, top);
  }

  /** A machine of the session that exists can be given its name back, with nothing else in the way. */
  lemma MachineIsReady(c: Config, w: World, id: string) returns (ready: World)
    requires Inv(c, w) && id in OwnedVms(c, w)
    ensures Reaches(c, w, ready) && ready == w.(vms := map[id := Wanted(c)])
  {
    ReachSelf(c, w);
    var alone := ClearOthers(c, w, w, {id});
    assert alone.vms == map[id := w.vms[id]];
    ready := w.(vms := map[id := Wanted(c)]);
    var vm := alone.vms[id].(displayName := c.displayName, specFingerprint := c.specFingerprint);
    assert alone.vms[id := vm] == ready.vms;
    ReachStep(c, w, alone, ready, DriftVm(id, c.displayName, c.specFingerprint));
  }

  lemma MachineArrives(c: Config, w: World, id: string) returns (ready: World)
    requires w.inflight > 0 && id !in w.used
    ensures Reaches(c, w, ready) && ready.log == w.log && ready.vms == map[id := Wanted(c)]
  {
    ReachSelf(c, w);
    var alone := ClearOthers(c, w, w, {});
    assert alone.vms == map[];
    ready := alone.(vms := alone.vms[id := Wanted(c)], used := alone.used + {id}, born := alone.born + {id},
                    inflight := alone.inflight - 1);
    ReachStep(c, w, alone, ready, Materialise(id));
  }

  lemma DispatchedIsClosable(c: Config, w: World, top: U64)
    requires Inv(c, w) && RoomFor(w.log, top, 5) && Read(c, w).Ok? && Read(c, w).value.phase.CreateDispatched?
    requires HasBindableVm(c, w) || (w.inflight > 0 && HasUnusedId(w))
    ensures Closable(c, w)
  {
    var id, ready;
    if HasBindableVm(c, w) {
      id :| id in OwnedVms(c, w) && CanonicalUuid(id);
      ready := MachineIsReady(c, w, id);
    } else {
      id :| CanonicalUuid(id) && id !in w.used;
      ready := MachineArrives(c, w, id);
    }
    assert ready.vms - {id} == map[];
    OpenThenClose(c, w, ready, id, top);
  }

  lemma BoundIsClosable(c: Config, w: World, top: U64)
    requires Inv(c, w) && RoomFor(w.log, top, 5) && CanStillClose(c, w) && Rank(Read(c, w).value.phase) >= 3
    ensures Closable(c, w)
  {
    if Read(c, w).value.phase.Terminal? {
      ReachSelf(c, w);
      assert Ended(c, w);
    } else {
      var pid := FreshPid(w.procs.Keys);
      var closed := CanBeClosed(c, w, pid, top);
      assert Ended(c, closed);
    }
  }

  // ---------------------------------------------------------------- the classification

  lemma CreateWord(phase: Phase, k: nat)
    requires Rank(phase) <= 2 && k < |PhaseWord(phase)|
    ensures PhaseWord(phase)[k] in {PrepareCreate, DispatchCreate}
  {
  }

  lemma UndispatchedMeansCreating(c: Config, w: World)
    requires Read(c, w).Ok? && Rank(Read(c, w).value.phase) <= 2
    ensures OnlyCreateRecords(c, w.log)
  {
    ReconstructedChain(w.log, c.sha, c.Intent());
    var chain := Chain(w.log, c.sha, c.Intent());
    ReplayDeterminesWord(chain, c.Intent());
    forall i | 0 <= i < |w.log| && w.log[i].payload.intentId == c.Intent().id
      ensures w.log[i].payload.transition in {PrepareCreate, DispatchCreate}
    {
      assert w.log[i] in chain;
      var k :| 0 <= k < |chain| && chain[k] == w.log[i];
      CreateWord(Read(c, w).value.phase, k);
      assert Word(chain)[k] == w.log[i].payload.transition;
    }
  }

  lemma UnboundWhenQuiet(c: Config, w: World)
    requires Inv(c, w) && AllDone(w) && Read(c, w).Ok? && Rank(Read(c, w).value.phase) <= 2 && !HasBindableVm(c, w)
    ensures Unbound(c, w)
  {
    UndispatchedMeansCreating(c, w);
  }

  lemma StrandedWhenQuiet(c: Config, w: World)
    requires Inv(c, w) && AllDone(w) && Read(c, w).Ok? && Read(c, w).value.phase.CreateDispatched?
    requires w.inflight == 0 && !HasBindableVm(c, w)
    ensures Stranded(c, w)
  {
    UnboundWhenQuiet(c, w);
    NamespaceNonInterference(w.log, c.sha, c.Intent());
  }

  /** Why a quiet world that fails the condition never ends: one of four invariants keeps it from it. */
  lemma NeverEnds(c: Config, w: World, w': World)
    requires Inv(c, w) && AllDone(w) && !CanStillClose(c, w) && Reaches(c, w, w')
    ensures !Ended(c, w')
  {
    var worlds, steps :| PathBetween(c, w, w', worlds, steps);
    var n := |steps|;
    if Read(c, w).Err? {
      UnreadableForever(c, worlds, steps, n);
    } else if Rank(Read(c, w).value.phase) >= 3 {
      GoneIsStuck(c, w);
      StuckForever(c, worlds, steps, n);
      StuckNeverEnds(c, w');
    } else {
      UnopenedNeverEnds(c, worlds, steps);
    }
  }

  lemma StuckNeverEnds(c: Config, w: World)
    requires Stuck(c, w)
    ensures !Ended(c, w)
  {
    if Read(c, w).Ok? {
      StuckReads(c, w);
    }
  }

  lemma UnboundNeverEnds(c: Config, w: World)
    requires Unbound(c, w)
    ensures !Ended(c, w)
  {
    if Read(c, w).Ok? {
      UnboundReads(c, w);
    }
  }

  lemma NothingToBind(c: Config, w: World)
    requires Inv(c, w) && !CanStillClose(c, w) && Read(c, w).Ok? && Rank(Read(c, w).value.phase) <= 2
    ensures !HasBindableVm(c, w)
    ensures HasUnusedId(w) ==> Read(c, w).value.phase.CreateDispatched? && w.inflight == 0
  {
    PhaseAgrees(c, w);
  }

  lemma HopelessWhenQuiet(c: Config, w: World)
    requires Inv(c, w) && AllDone(w) && !CanStillClose(c, w)
    requires Read(c, w).Ok? && Rank(Read(c, w).value.phase) <= 2
    ensures Unbound(c, w) && (IdsExhausted(w) || Stranded(c, w))
  {
    NothingToBind(c, w);
    UnboundWhenQuiet(c, w);
    if HasUnusedId(w) {
      StrandedWhenQuiet(c, w);
    }
  }

  lemma UnopenedNeverEnds(c: Config, worlds: seq<World>, steps: seq<Step>)
    requires Path(c, worlds, steps) && Inv(c, worlds[0]) && AllDone(worlds[0]) && !CanStillClose(c, worlds[0])
    requires Read(c, worlds[0]).Ok? && Rank(Read(c, worlds[0]).value.phase) <= 2
    ensures !Ended(c, worlds[|steps|])
  {
    HopelessWhenQuiet(c, worlds[0]);
    if IdsExhausted(worlds[0]) {
      UnboundForever(c, worlds, steps, |steps|);
    } else {
      StrandedForever(c, worlds, steps, |steps|);
    }
    UnboundNeverEnds(c, worlds[|steps|]);
  }

  /**
    Which sessions can still be brought to their end. In every world of every run in which all
    processes have stopped, exactly when the ledger is readable and: nothing has been dispatched
    yet and the provider has an id left to give; or the create was dispatched and its machine
    exists or is still on its way; or the machine the ledger names still exists; or its delete
    was dispatched. A create that was dispatched and lost, and a machine that vanished before
    its delete was dispatched, leave a ledger no continuation can bring to its terminal phase.
   */
  lemma ClosableIff(c: Config, worlds: seq<World>, steps: seq<Step>, i: nat, top: U64)
    requires Run(c, worlds, steps) && i < |worlds| && AllDone(worlds[i]) && RoomFor(worlds[i].log, top, 5)
    ensures Closable(c, worlds[i]) <==> CanStillClose(c, worlds[i])
  {
    RunInvariant(c, worlds, steps, i);
    var w := worlds[i];
    if CanStillClose(c, w) {
      match Read(c, w).value.phase
      case Empty => UnopenedIsClosable(c, w, top);
      case CreatePrepared(_) => UnopenedIsClosable(c, w, top);
      case CreateDispatched(_) => DispatchedIsClosable(c, w, top);
      case _ => BoundIsClosable(c, w, top);
    } else {
      forall w' | Reaches(c, w, w') ensures !Ended(c, w') {
        NeverEnds(c, w, w');
      }
    }
  }

  // ---------------------------------------------------------------- both failures do occur

  const START := World([], [], map[], {}, {}, 0, map[], [], [])

  lemma StartReads(c: Config)
    requires ValidSha(c.sha)
    ensures Init(c, START) && Read(c, START) == Ok(INITIAL_STATE)
  {
    assert SortById([]) == [];
  }

  lemma ReachedByRun(c: Config, w: World) returns (worlds: seq<World>, steps: seq<Step>)
    requires Init(c, START) && Reaches(c, START, w)
    ensures Run(c, worlds, steps) && worlds[|steps|] == w
  {
    worlds, steps :| PathBetween(c, START, w, worlds, steps);
  }

  /** Every process may stop where it is. */
  lemma {:induction false} StopAll(c: Config, start: World, w: World, live: set<nat>) returns (w': World)
    requires Reaches(c, start, w) && live == set p | p in w.procs && !w.procs[p].pc.Done?
    ensures Reaches(c, start, w') && AllDone(w') && w' == w.(procs := w'.procs)
    decreases live
  {
    if p :| p in live {
      var stopped := At(w, p, Done(Failed));
      ReachStep(c, start, w, stopped, Crash(p));
      assert live - {p} == set q | q in stopped.procs && !stopped.procs[q].pc.Done?;
      w' := StopAll(c, start, stopped, live - {p});
    } else {
      w' := w;
      assert forall q | q in w.procs && !w.procs[q].pc.Done? :: q in live;
    }
  }

  lemma Quiet(c: Config, w: World) returns (w': World)
    requires Reaches(c, START, w)
    ensures Reaches(c, START, w') && AllDone(w') && w' == w.(procs := w'.procs)
  {
    w' := StopAll(c, START, w, set p | p in w.procs && !w.procs[p].pc.Done?);
  }

  /** A run that stops between the fenced dispatch and the create call: its ledger waits for ever. */
  lemma DispatchWithoutCall(c: Config) returns (worlds: seq<World>, steps: seq<Step>)
    requires ValidSha(c.sha)
    ensures Run(c, worlds, steps) && AllDone(worlds[|steps|])
    ensures var w := worlds[|steps|];
            && Read(c, w).Ok? && Read(c, w).value.phase.CreateDispatched? && w.creates == []
            && !Closable(c, w)
  {
    StartReads(c);
    var listing := SpawnOpen(c, START, 0);
    CreateIsPlanned(c, START, listing, 0, None, PrepareCreateOp);
    var ready := At(listing, 0, StoreRead(PrepareCreateOp));
    var prepared := StoreOpCompletes(c, START, ready, 0, Opening, PrepareCreateOp, 1);
    var dispatched := StoreOpCompletes(c, START, prepared, 0, Opening, DispatchCreateOp(INITIAL), 2);
    var w := Quiet(c, dispatched);
    assert OwnedVms(c, w) == {};
    worlds, steps := ReachedByRun(c, w);
    Hopeless(c, worlds, steps);
  }

  /** A run whose machine is bound and then lost by the provider: closing it is impossible from then on. */
  lemma BoundMachineVanishes(c: Config) returns (worlds: seq<World>, steps: seq<Step>)
    requires ValidSha(c.sha)
    ensures Run(c, worlds, steps) && AllDone(worlds[|steps|])
    ensures var w := worlds[|steps|];
            && Read(c, w).Ok? && Read(c, w).value.phase == Bound(WantedBinding(c, UUID_A)) && UUID_A !in w.vms
            && !Closable(c, w)
  {
    StartReads(c);
    WitnessUuids();
    InitEstablishes(c, START);
    var bound := CanBeOpened(c, START, 0, UUID_A, 1);
    assert UUID_A in OwnedVms(c, bound);
    var gone := bound.(vms := bound.vms - {UUID_A});
    ReachStep(c, START, bound, gone, RemoveVm(UUID_A));
    var w := Quiet(c, gone);
    worlds, steps := ReachedByRun(c, w);
    Hopeless(c, worlds, steps);
  }

  lemma Hopeless(c: Config, worlds: seq<World>, steps: seq<Step>)
    requires Run(c, worlds, steps) && AllDone(worlds[|steps|]) && !CanStillClose(c, worlds[|steps|])
    ensures !Closable(c, worlds[|steps|])
  {
    RunInvariant(c, worlds, steps, |steps|);
    forall w' | Reaches(c, worlds[|steps|], w') ensures !Ended(c, w') {
      NeverEnds(c, worlds[|steps|], w');
    }
  }
}
