/**
  What a process left alone by faults achieves: an admitted store operation ends verified, an
  open ends with its machine bound, and a close ends with the machine gone and the ledger
  terminal, from every world that allows it, whatever crashed before.
 */
module SessionProgress {
  import opened Wrappers
  import opened Lifecycle
  import opened Ledger
  import opened LedgerTheory
  import opened BindingStore
  import opened BindingStoreTheory
  import opened Session
  import opened SessionTheory

  // ---------------------------------------------------------------- continuations

  ghost predicate Path(c: Config, worlds: seq<World>, steps: seq<Step>) {
    && |worlds| == |steps| + 1
    && forall i | 0 <= i < |steps| :: Next(c, worlds[i], worlds[i + 1], steps[i])
  }

  ghost predicate PathBetween(c: Config, w: World, w': World, worlds: seq<World>, steps: seq<Step>) {
    Path(c, worlds, steps) && worlds[0] == w && worlds[|steps|] == w'
  }

  /** Some sequence of steps leads from one world to the other. */
  ghost predicate Reaches(c: Config, w: World, w': World) {
    exists worlds, steps :: PathBetween(c, w, w', worlds, steps)
  }

  lemma ReachSelf(c: Config, w: World)
    ensures Reaches(c, w, w)
  {
    assert PathBetween(c, w, w, [w], []);
  }

  lemma ReachStep(c: Config, w: World, w': World, w'': World, step: Step)
    requires Reaches(c, w, w') && Next(c, w', w'', step)
    ensures Reaches(c, w, w'')
  {
    var worlds, steps :| PathBetween(c, w, w', worlds, steps);
    var worlds', steps' := worlds + [w''], steps + [step];
    forall i | 0 <= i < |steps'| ensures Next(c, worlds'[i], worlds'[i + 1], steps'[i]) {
      if i < |steps| {
        assert Next(c, worlds[i], worlds[i + 1], steps[i]);
      }
    }
    assert PathBetween(c, w, w'', worlds', steps');
  }

  lemma ReachOn(c: Config, w: World, w': World, w'': World)
    requires Reaches(c, w, w') && Reaches(c, w', w'')
    ensures Reaches(c, w, w'')
  {
    var worlds, steps :| PathBetween(c, w', w'', worlds, steps);
    ReachAlong(c, w, worlds, steps, |steps|);
  }

  lemma {:induction false} ReachAlong(c: Config, w: World, worlds: seq<World>, steps: seq<Step>, i: nat)
    requires Path(c, worlds, steps) && Reaches(c, w, worlds[0]) && i < |worlds|
    ensures Reaches(c, w, worlds[i])
  {
    if i > 0 {
      ReachAlong(c, w, worlds, steps, i - 1);
      assert Next(c, worlds[i - 1], worlds[i - 1 + 1], steps[i - 1]);
      ReachStep(c, w, worlds[i - 1], worlds[i], steps[i - 1]);
    }
  }

  lemma {:induction false} PathInvariant(c: Config, worlds: seq<World>, steps: seq<Step>, i: nat)
    requires Path(c, worlds, steps) && Inv(c, worlds[0]) && i < |worlds|
    ensures Inv(c, worlds[i])
  {
    if i > 0 {
      PathInvariant(c, worlds, steps, i - 1);
      assert Next(c, worlds[i - 1], worlds[i - 1 + 1], steps[i - 1]);
      StepPreserves(c, worlds[i - 1], worlds[i], steps[i - 1]);
    }
  }

  // ---------------------------------------------------------------- what a fault-free process does

  function Read(c: Config, w: World): Result<LedgerState, StoreError> {
    Reconstruct(w.log, c.sha, c.Intent())
  }

  predicate PcIs(w: World, pid: nat, kind: Kind, pc: Pc) {
    pid in w.procs && w.procs[pid] == Process(kind, pc)
  }

  predicate FreshId(log: seq<Record>, id: U64) {
    forall r | r in log :: r.id < id
  }

  /** The backend can still assign `n` ids from `top` on, all above what is recorded. */
  predicate RoomFor(log: seq<Record>, top: U64, n: nat) {
    top + n <= U64_MAX && FreshId(log, top)
  }

  function Grown(c: Config, w: World, pid: nat, newId: U64, head: Option<U64>, write: Write, pc: Pc): World
    requires pid in w.procs
  {
    At(w.(log := w.log + [NewRecord(newId, c.sha, c.Intent(), head, write)], authors := w.authors + [pid]), pid, pc)
  }

  lemma MovesOn(c: Config, start: World, w: World, pid: nat, pc: Pc, step: Step)
    requires Reaches(c, start, w) && pid in w.procs && Next(c, w, At(w, pid, pc), step)
    ensures Reaches(c, start, At(w, pid, pc))
  {
    ReachStep(c, start, w, At(w, pid, pc), step);
  }

  lemma AppendMoves(c: Config, w: World, pid: nat, newId: U64)
    requires pid in w.procs && w.procs[pid].pc.StoreAppend?
    ensures var pc := w.procs[pid].pc;
            Next(c, w, Grown(c, w, pid, newId, pc.head, pc.write, StoreVerify(pc.op, pc.write, newId, |w.log|)),
                 Append(pid, newId, Appended))
  {
  }

  lemma GrownOver(c: Config, w: World, pid: nat, newId: U64, head: Option<U64>, write: Write, pc: Pc, pc': Pc)
    requires pid in w.procs
    ensures Grown(c, At(w, pid, pc), pid, newId, head, write, pc') == Grown(c, w, pid, newId, head, write, pc')
    ensures At(Grown(c, w, pid, newId, head, write, pc), pid, pc') == Grown(c, w, pid, newId, head, write, pc')
  {
    var first, second := w.procs[pid].(pc := pc), w.procs[pid].(pc := pc');
    assert w.procs[pid := first][pid := second] == w.procs[pid := second];
  }

  /** An admitted store operation, left alone by faults and other writers, ends verified. */
  lemma StoreOpCompletes(c: Config, start: World, w: World, pid: nat, kind: Kind, op: StoreOp, newId: U64)
      returns (w': World)
    requires Reaches(c, start, w) && PcIs(w, pid, kind, StoreRead(op))
    requires Read(c, w).Ok? && FreshId(w.log, newId)
    requires CheckArguments(op, c.Intent(), c.Intent()).Ok? && PlanWrite(op, Read(c, w).value.phase).Ok?
    ensures Reaches(c, start, w')
    ensures w' == Grown(c, w, pid, newId, Read(c, w).value.head, PlanWrite(op, Read(c, w).value.phase).value,
                        AfterStore(kind, op, |w.log|))
    ensures Read(c, w') == Ok(LedgerState(Some(newId), PlanWrite(op, Read(c, w).value.phase).value.after))
  {
    var state := Read(c, w).value;
    var write := PlanWrite(op, state.phase).value;
    var appending, verifying := StoreAppend(op, state.head, write), StoreVerify(op, write, newId, |w.log|);
    MovesOn(c, start, w, pid, appending, ReadLedger(pid));
    var appended := Grown(c, w, pid, newId, state.head, write, verifying);
    AppendMoves(c, At(w, pid, appending), pid, newId);
    GrownOver(c, w, pid, newId, state.head, write, appending, verifying);
    ReachStep(c, start, At(w, pid, appending), appended, Append(pid, newId, Appended));
    AppendedReads(c, w, op, newId);
    MovesOn(c, start, appended, pid, AfterStore(kind, op, |w.log|), ReadLedger(pid));
    GrownOver(c, w, pid, newId, state.head, write, verifying, AfterStore(kind, op, |w.log|));
    w' := Grown(c, w, pid, newId, state.head, write, AfterStore(kind, op, |w.log|));
  }

  lemma AppendedReads(c: Config, w: World, op: StoreOp, newId: U64)
    requires Read(c, w).Ok? && FreshId(w.log, newId)
    requires CheckArguments(op, c.Intent(), c.Intent()).Ok? && PlanWrite(op, Read(c, w).value.phase).Ok?
    ensures var write := PlanWrite(op, Read(c, w).value.phase).value;
            Reconstruct(w.log + [NewRecord(newId, c.sha, c.Intent(), Read(c, w).value.head, write)], c.sha, c.Intent())
              == Ok(LedgerState(Some(newId), write.after))
  {
    var own, state := c.Intent(), Read(c, w).value;
    var write := PlanWrite(op, state.phase).value;
    ReconstructedPhase(w.log, c.sha, own);
    PlannedBindingsAreChecked(op, state.phase, own);
    NewRecordIsValid(newId, c.sha, Item20, state.head, write);
    PlannedWriteIsAccepted(op, state.phase, c.sha, own, state.head);
    AppendReconstructs(w.log, NewRecord(newId, c.sha, own, state.head, write), c.sha, own);
  }

  // ---------------------------------------------------------------- listings

  lemma ListingGrows(rest: seq<ObservedVm>, vms: map<string, Vm>, id: string)
    requires id in vms && IsListing(rest, vms - {id})
    ensures IsListing([Observe(id, vms[id])] + rest, vms)
  {
    var observed := [Observe(id, vms[id])] + rest;
    forall x | x in vms ensures Observe(x, vms[x]) in observed {
      if x != id {
        assert x in vms - {id};
        assert Observe(x, vms[x]) in rest;
      }
    }
  }

  /** Every machine once, in some order. */
  ghost function Listing(vms: map<string, Vm>): (observed: seq<ObservedVm>)
    ensures IsListing(observed, vms)
  {
    if vms == map[] then []
    else
      var id :| id in vms;
      ListingGrows(Listing(vms - {id}), vms, id);
      [Observe(id, vms[id])] + Listing(vms - {id})
  }

  /** Every machine once, the one with the given id first. */
  ghost function ListingFrom(vms: map<string, Vm>, id: string): (observed: seq<ObservedVm>)
    requires id in vms
    ensures IsListing(observed, vms)
  {
    ListingGrows(Listing(vms - {id}), vms, id);
    [Observe(id, vms[id])] + Listing(vms - {id})
  }

  lemma {:induction false} NoClaims(observed: seq<ObservedVm>, intent: OwnershipIntent)
    requires forall o | o in observed :: !Claims(o, intent)
    ensures OwnershipClaims(observed, intent) == []
  {
    if observed != [] {
      NoClaims(observed[1..], intent);
    }
  }

  lemma ClaimsCons(vm: ObservedVm, rest: seq<ObservedVm>, intent: OwnershipIntent)
    requires Claims(vm, intent) && forall o | o in rest :: !Claims(o, intent)
    ensures OwnershipClaims([vm] + rest, intent) == [vm]
  {
    NoClaims(rest, intent);
    assert ([vm] + rest)[1..] == rest;
  }

  lemma OthersDoNotClaim(c: Config, w: World, b: VmBinding)
    requires Inv(c, w) && BindingOk(c, w, b)
    ensures forall id | id in w.vms && OwnedBy(w.vms[id].ownership, c.Intent()) :: id == b.providerId
  {
    forall id | id in w.vms && OwnedBy(w.vms[id].ownership, c.Intent()) ensures id == b.providerId {
      assert id in OwnedVms(c, w);
      BornSingleton(c, w, id, b.providerId);
    }
  }

  /** A bound machine that is still there is authorised for deletion. */
  lemma PresentIsAuthorized(c: Config, w: World, b: VmBinding)
    requires Inv(c, w) && BindingOk(c, w, b) && b.providerId in w.vms
    ensures AuthorizeMutation(b, ListingFrom(w.vms, b.providerId), b.generation).Ok?
  {
    var rest := Listing(w.vms - {b.providerId});
    var vm := Observe(b.providerId, w.vms[b.providerId]);
    OthersDoNotClaim(c, w, b);
    forall o | o in rest ensures !Claims(o, b.intent) {
      assert o.providerId in w.vms - {b.providerId};
    }
    ClaimsCons(vm, rest, b.intent);
    assert FindById([vm] + rest, b.providerId) == Some(vm);
  }

  lemma AbsentIsNotFound(c: Config, w: World, b: VmBinding)
    requires Inv(c, w) && BindingOk(c, w, b) && b.providerId !in w.vms
    ensures AuthorizeMutation(b, Listing(w.vms), b.generation) == Err(ProviderResourceNotFound)
  {
    var observed := Listing(w.vms);
    forall vm | vm in observed ensures vm.providerId != b.providerId && !Claims(vm, b.intent) {
      if Claims(vm, b.intent) {
        assert vm.providerId in OwnedVms(c, w);
        BornSingleton(c, w, vm.providerId, b.providerId);
      }
    }
    NotFoundIffAbsent(b, observed);
  }

  // ---------------------------------------------------------------- bound machines can be deleted

  predicate Closed(w: World, pid: nat) {
    pid in w.procs && w.procs[pid].pc == Done(DeletedAndTerminal)
  }

  lemma FinishAbsent(c: Config, start: World, w: World, pid: nat, b: VmBinding, newId: U64) returns (w': World)
    requires Reaches(c, start, w) && PcIs(w, pid, Closing, StoreRead(SwapOp(Some(b), None)))
    requires Read(c, w).Ok? && Read(c, w).value.phase == DeleteDispatched(b) && FreshId(w.log, newId)
    requires CheckBinding(b, c.Intent()).Ok?
    ensures Reaches(c, start, w') && Closed(w', pid) && Read(c, w').Ok?
    ensures Read(c, w').value.phase == Terminal(b.generation)
  {
    var swapped := StoreOpCompletes(c, start, w, pid, Closing, SwapOp(Some(b), None), newId);
    w' := At(swapped, pid, Done(DeletedAndTerminal));
    ReachStep(c, start, swapped, w', ReadLedger(pid));
  }

  /** A delete call that comes back, followed by the machine's disappearance. */
  lemma DeleteArrives(c: Config, start: World, w: World, pid: nat, b: VmBinding) returns (w': World)
    requires Reaches(c, start, w) && PcIs(w, pid, Closing, CallDelete(b))
    ensures Reaches(c, start, w') && PcIs(w', pid, Closing, ConfirmDeleted(b, 0))
    ensures w'.log == w.log && b.providerId !in w'.vms
  {
    var called := At(w.(deletes := w.deletes + [b]), pid, ConfirmDeleted(b, 0));
    ReachStep(c, start, w, called, DeleteVm(pid, true));
    w' := called;
    if b.providerId in called.vms {
      w' := called.(vms := called.vms - {b.providerId});
      ReachStep(c, start, called, w', RemoveVm(b.providerId));
    }
  }

  lemma FinishDelete(c: Config, start: World, w: World, pid: nat, b: VmBinding, newId: U64) returns (w': World)
    requires Inv(c, start) && Reaches(c, start, w) && PcIs(w, pid, Closing, CallDelete(b))
    requires Read(c, w).Ok? && Read(c, w).value.phase == DeleteDispatched(b) && FreshId(w.log, newId)
    requires CheckBinding(b, c.Intent()).Ok?
    ensures Reaches(c, start, w') && Closed(w', pid) && Read(c, w').Ok?
    ensures Read(c, w').value.phase == Terminal(b.generation)
  {
    var gone := DeleteArrives(c, start, w, pid, b);
    ReachedInv(c, start, gone);
    assert PcOk(c, gone, pid, gone.procs[pid].pc);
    AbsentIsNotFound(c, gone, b);
    var confirmed := At(gone, pid, StoreRead(SwapOp(Some(b), None)));
    ReachStep(c, start, gone, confirmed, ListInstances(pid, Listing(gone.vms)));
    w' := FinishAbsent(c, start, confirmed, pid, b, newId);
  }

  lemma FinishPrepared(c: Config, start: World, w: World, pid: nat, b: VmBinding, top: U64) returns (w': World)
    requires Inv(c, start) && Reaches(c, start, w) && PcIs(w, pid, Closing, StoreRead(DispatchDeleteOp(b)))
    requires Read(c, w).Ok? && Read(c, w).value.phase == DeletePrepared(b) && RoomFor(w.log, top, 1)
    requires CheckBinding(b, c.Intent()).Ok?
    ensures Reaches(c, start, w') && Closed(w', pid) && Read(c, w').Ok?
    ensures Read(c, w').value.phase == Terminal(b.generation)
  {
    var dispatched := StoreOpCompletes(c, start, w, pid, Closing, DispatchDeleteOp(b), top);
    w' := FinishDelete(c, start, dispatched, pid, b, top + 1);
  }

  lemma FinishBound(c: Config, start: World, w: World, pid: nat, b: VmBinding, top: U64) returns (w': World)
    requires Inv(c, start) && Reaches(c, start, w) && PcIs(w, pid, Closing, StoreRead(PrepareDeleteOp(b)))
    requires Read(c, w).Ok? && Read(c, w).value.phase == Bound(b) && RoomFor(w.log, top, 2)
    requires CheckBinding(b, c.Intent()).Ok?
    ensures Reaches(c, start, w') && Closed(w', pid) && Read(c, w').Ok?
    ensures Read(c, w').value.phase == Terminal(b.generation)
  {
    var prepared := StoreOpCompletes(c, start, w, pid, Closing, PrepareDeleteOp(b), top);
    w' := FinishPrepared(c, start, prepared, pid, b, top + 1);
  }

  lemma ReachedInv(c: Config, start: World, w: World)
    requires Inv(c, start) && Reaches(c, start, w)
    ensures Inv(c, w)
  {
    var worlds, steps :| PathBetween(c, start, w, worlds, steps);
    PathInvariant(c, worlds, steps, |steps|);
  }

  /** A close that finds its machine gone records the end; one that finds it deletes it first. */
  lemma CloseDispatched(c: Config, start: World, w: World, pid: nat, b: VmBinding, newId: U64) returns (w': World)
    requires Inv(c, start) && Reaches(c, start, w) && PcIs(w, pid, Closing, RecoverDelete(b))
    requires Read(c, w).Ok? && Read(c, w).value.phase == DeleteDispatched(b) && FreshId(w.log, newId)
    requires CheckBinding(b, c.Intent()).Ok?
    ensures Reaches(c, start, w') && Closed(w', pid) && Read(c, w').Ok?
    ensures Read(c, w').value.phase == Terminal(b.generation)
  {
    ReachedInv(c, start, w);
    assert PcOk(c, w, pid, w.procs[pid].pc);
    if b.providerId in w.vms {
      PresentIsAuthorized(c, w, b);
      var calling := At(w, pid, CallDelete(b));
      ReachStep(c, start, w, calling, ListInstances(pid, ListingFrom(w.vms, b.providerId)));
      w' := FinishDelete(c, start, calling, pid, b, newId);
    } else {
      AbsentIsNotFound(c, w, b);
      var absent := At(w, pid, StoreRead(SwapOp(Some(b), None)));
      ReachStep(c, start, w, absent, ListInstances(pid, Listing(w.vms)));
      w' := FinishAbsent(c, start, absent, pid, b, newId);
    }
  }

  lemma CloseResolved(c: Config, start: World, w: World, pid: nat, b: VmBinding, prepared: bool, top: U64)
    returns (w': World)
    requires Inv(c, start) && Reaches(c, start, w) && PcIs(w, pid, Closing, ResolveDelete(b, prepared))
    requires Read(c, w).Ok? && Read(c, w).value.phase == (if prepared then DeletePrepared(b) else Bound(b))
    requires RoomFor(w.log, top, 2)
    requires CheckBinding(b, c.Intent()).Ok? && b.providerId in w.vms
    ensures Reaches(c, start, w') && Closed(w', pid) && Read(c, w').Ok?
    ensures Read(c, w').value.phase == Terminal(b.generation)
  {
    ReachedInv(c, start, w);
    assert PcOk(c, w, pid, w.procs[pid].pc);
    PresentIsAuthorized(c, w, b);
    var listing := ListInstances(pid, ListingFrom(w.vms, b.providerId));
    if prepared {
      var resolved := At(w, pid, StoreRead(DispatchDeleteOp(b)));
      ReachStep(c, start, w, resolved, listing);
      w' := FinishPrepared(c, start, resolved, pid, b, top);
    } else {
      var resolved := At(w, pid, StoreRead(PrepareDeleteOp(b)));
      ReachStep(c, start, w, resolved, listing);
      w' := FinishBound(c, start, resolved, pid, b, top);
    }
  }

  lemma {:induction false} ReplayedUuid(chain: seq<Record>, intent: OwnershipIntent)
    requires Replay(chain, intent).Ok?
    ensures var b := HeldBinding(Replay(chain, intent).value.phase);
            b.Some? ==> CheckBinding(b.value, intent).Ok?
  {
    if chain != [] {
      ReplayUnfold(chain, intent);
      ReplayedUuid(chain[..|chain| - 1], intent);
    }
  }

  /**
    Whatever crashed before: in a world whose ledger names a machine that is still there, or
    whose delete was dispatched, one more close process can end the session.
   */
  lemma CanBeClosed(c: Config, w: World, pid: nat, top: U64) returns (w': World)
    requires Inv(c, w) && pid !in w.procs && RoomFor(w.log, top, 2)
    requires Read(c, w).Ok? && HeldBinding(Read(c, w).value.phase).Some?
    requires Read(c, w).value.phase.DeleteDispatched? || HeldBinding(Read(c, w).value.phase).value.providerId in w.vms
    ensures Reaches(c, w, w') && Closed(w', pid)
    ensures Read(c, w').Ok? && Read(c, w').value.phase.Terminal? && OwnedVms(c, w') == {}
  {
    var phase := Read(c, w).value.phase;
    var reading := SpawnClose(c, w, pid);
    match phase {
      case DeleteDispatched(b) => w' := CloseDispatched(c, w, reading, pid, b, top);
      case DeletePrepared(b) => w' := CloseResolved(c, w, reading, pid, b, true, top);
      case Bound(b) => w' := CloseResolved(c, w, reading, pid, b, false, top);
    }
    ReachedInv(c, w, w');
    PhaseAgrees(c, w');
  }

  lemma SpawnClose(c: Config, w: World, pid: nat) returns (w': World)
    requires pid !in w.procs && Read(c, w).Ok?
    ensures Reaches(c, w, w') && PcIs(w', pid, Closing, AfterCloseRead(c, Read(c, w).value.phase))
    ensures w'.log == w.log && w'.vms == w.vms
    ensures var b := HeldBinding(Read(c, w).value.phase);
            b.Some? ==> CheckBinding(b.value, c.Intent()).Ok?
  {
    ReconstructedChain(w.log, c.sha, c.Intent());
    ReplayedUuid(Chain(w.log, c.sha, c.Intent()), c.Intent());
    ReachSelf(c, w);
    var spawned := w.(procs := w.procs[pid := Process(Closing, Start)]);
    ReachStep(c, w, w, spawned, Spawn(pid, Closing));
    w' := At(spawned, pid, AfterCloseRead(c, Read(c, w).value.phase));
    ReachStep(c, w, spawned, w', ReadLedger(pid));
  }

  // ---------------------------------------------------------------- unclaimed sessions can be opened

  lemma {:induction false} NoNamesakes(observed: seq<ObservedVm>, name: string)
    requires forall o | o in observed :: o.displayName != name
    ensures SameName(observed, name) == []
  {
    if observed != [] {
      NoNamesakes(observed[1..], name);
    }
  }

  lemma NamesakesCons(vm: ObservedVm, rest: seq<ObservedVm>, name: string)
    requires vm.displayName == name && forall o | o in rest :: o.displayName != name
    ensures SameName([vm] + rest, name) == [vm]
  {
    NoNamesakes(rest, name);
    assert ([vm] + rest)[1..] == rest;
  }

  /** The created machine: desired name, specification and ownership. */
  function Wanted(c: Config): Vm {
    Vm(c.displayName, Exact(ExactOwnership(c.Intent(), INITIAL)), c.specFingerprint)
  }

  function WantedBinding(c: Config, id: string): VmBinding {
    VmBinding(c.Intent(), id, INITIAL)
  }

  lemma WantedIsRecovered(c: Config, vms: map<string, Vm>, id: string)
    requires OnlyWanted(c, vms, id)
    ensures AfterRecoverListing(c, INITIAL, 0, ListingFrom(vms, id))
         == StoreRead(SwapOp(None, Some(WantedBinding(c, id))))
  {
    var vm := Observe(id, vms[id]);
    var rest := Listing(vms - {id});
    forall o | o in rest ensures !Claims(o, c.Intent()) && o.displayName != c.displayName {
      assert o.providerId in vms - {id};
    }
    ClaimsCons(vm, rest, c.Intent());
    NamesakesCons(vm, rest, c.displayName);
    assert vm in SameName(ListingFrom(vms, id), c.displayName);
  }

  /** The wanted machine is there and no other claims the intent or has the desired name. */
  ghost predicate OnlyWanted(c: Config, vms: map<string, Vm>, id: string) {
    && id in vms && vms[id] == Wanted(c)
    && NoneInTheWay(c, vms - {id})
  }

  ghost predicate NoneInTheWay(c: Config, vms: map<string, Vm>) {
    forall x | x in vms :: !OwnedBy(vms[x].ownership, c.Intent()) && vms[x].displayName != c.displayName
  }

  /** A create call that reaches the provider and comes back, followed by the machine's appearance. */
  lemma CreateArrives(c: Config, start: World, w: World, pid: nat, at: nat, id: string) returns (w': World)
    requires Reaches(c, start, w) && PcIs(w, pid, Opening, CallCreate(INITIAL, at)) && id !in w.used
    ensures Reaches(c, start, w') && PcIs(w', pid, Opening, Recover(INITIAL, 0))
    ensures w'.log == w.log && w'.vms == w.vms[id := Wanted(c)]
  {
    var called := At(w.(creates := w.creates + [at], inflight := w.inflight + 1), pid, Recover(INITIAL, 0));
    ReachStep(c, start, w, called, CreateVm(pid, true, true));
    w' := called.(vms := called.vms[id := Wanted(c)], used := called.used + {id}, born := called.born + {id},
                  inflight := called.inflight - 1);
    ReachStep(c, start, called, w', Materialise(id));
  }

  /** A session that waits for its machine and finds it binds it. */
  lemma RecoveryBinds(c: Config, start: World, w: World, pid: nat, kind: Kind, id: string, newId: U64)
    returns (w': World)
    requires Reaches(c, start, w) && PcIs(w, pid, kind, Recover(INITIAL, 0))
    requires Read(c, w).Ok? && Read(c, w).value.phase == CreateDispatched(INITIAL) && FreshId(w.log, newId)
    requires CanonicalUuid(id) && OnlyWanted(c, w.vms, id)
    ensures var b := WantedBinding(c, id);
            && Reaches(c, start, w')
            && PcIs(w', pid, kind, if kind == Opening then Done(Opened(b)) else ResolveDelete(b, false))
            && Read(c, w').Ok? && Read(c, w').value.phase == Bound(b)
            && w'.vms == w.vms && FreshIdAbove(w'.log, newId)
  {
    WantedIsRecovered(c, w.vms, id);
    var op := SwapOp(None, Some(WantedBinding(c, id)));
    MovesOn(c, start, w, pid, StoreRead(op), ListInstances(pid, ListingFrom(w.vms, id)));
    w' := StoreOpCompletes(c, start, At(w, pid, StoreRead(op)), pid, kind, op, newId);
  }

  predicate FreshIdAbove(log: seq<Record>, id: U64) {
    forall r | r in log :: r.id <= id
  }

  lemma AddedIsOnlyWanted(c: Config, vms: map<string, Vm>, id: string)
    requires NoneInTheWay(c, vms)
    ensures OnlyWanted(c, vms[id := Wanted(c)], id)
  {
  }

  lemma FinishDispatch(c: Config, start: World, w: World, pid: nat, id: string, top: U64) returns (w': World)
    requires Reaches(c, start, w) && PcIs(w, pid, Opening, StoreRead(DispatchCreateOp(INITIAL)))
    requires Read(c, w).Ok? && Read(c, w).value.phase == CreatePrepared(INITIAL) && RoomFor(w.log, top, 1)
    requires CanonicalUuid(id) && id !in w.used && id !in w.vms && NoneInTheWay(c, w.vms)
    ensures Reaches(c, start, w') && PcIs(w', pid, Opening, Done(Opened(WantedBinding(c, id))))
    ensures Read(c, w').Ok? && Read(c, w').value.phase == Bound(WantedBinding(c, id))
    ensures id in w'.vms && FreshIdAbove(w'.log, top + 1)
  {
    var dispatched := StoreOpCompletes(c, start, w, pid, Opening, DispatchCreateOp(INITIAL), top);
    var made := CreateArrives(c, start, dispatched, pid, |w.log|, id);
    AddedIsOnlyWanted(c, w.vms, id);
    w' := RecoveryBinds(c, start, made, pid, Opening, id, top + 1);
  }

  /** A fresh open process and its first read. */
  lemma SpawnOpen(c: Config, w: World, pid: nat) returns (w': World)
    requires pid !in w.procs && Read(c, w).Ok?
    ensures Reaches(c, w, w')
    ensures w' == w.(procs := w.procs[pid := Process(Opening, AfterOpenRead(c, Read(c, w).value.phase))])
  {
    ReachSelf(c, w);
    var spawned := w.(procs := w.procs[pid := Process(Opening, Start)]);
    ReachStep(c, w, w, spawned, Spawn(pid, Opening));
    w' := At(spawned, pid, AfterOpenRead(c, Read(c, w).value.phase));
    assert w'.procs == w.procs[pid := Process(Opening, AfterOpenRead(c, Read(c, w).value.phase))];
    ReachStep(c, w, spawned, w', ReadLedger(pid));
  }

  /** With nothing in the way, the planned create leads on to the ledger. */
  lemma CreateIsPlanned(c: Config, start: World, w: World, pid: nat, prepared: Option<Generation>, op: StoreOp)
    requires Reaches(c, start, w) && PcIs(w, pid, Opening, ListForCreate(prepared)) && NoneInTheWay(c, w.vms)
    requires op == if prepared.None? then PrepareCreateOp else DispatchCreateOp(INITIAL)
    requires prepared.Some? ==> prepared.value == INITIAL
    ensures Reaches(c, start, At(w, pid, StoreRead(op)))
  {
    CreatePlannedIffUnclaimed(Listing(w.vms), c.Desired());
    MovesOn(c, start, w, pid, StoreRead(op), ListInstances(pid, Listing(w.vms)));
  }

  lemma OpenEmpty(c: Config, w: World, pid: nat, id: string, top: U64) returns (w': World)
    requires pid !in w.procs && Read(c, w).Ok? && Read(c, w).value.phase.Empty? && RoomFor(w.log, top, 2)
    requires CanonicalUuid(id) && id !in w.used && id !in w.vms && NoneInTheWay(c, w.vms)
    ensures Reaches(c, w, w') && PcIs(w', pid, Opening, Done(Opened(WantedBinding(c, id))))
    ensures Read(c, w').Ok? && Read(c, w').value.phase == Bound(WantedBinding(c, id))
    ensures id in w'.vms && FreshIdAbove(w'.log, top + 2)
  {
    var listing := SpawnOpen(c, w, pid);
    CreateIsPlanned(c, w, listing, pid, None, PrepareCreateOp);
    var ready := At(listing, pid, StoreRead(PrepareCreateOp));
    var prepared := StoreOpCompletes(c, w, ready, pid, Opening, PrepareCreateOp, top);
    w' := FinishDispatch(c, w, prepared, pid, id, top + 1);
  }

  lemma OpenPrepared(c: Config, w: World, pid: nat, id: string, top: U64) returns (w': World)
    requires pid !in w.procs && Read(c, w).Ok? && Read(c, w).value.phase == CreatePrepared(INITIAL)
    requires RoomFor(w.log, top, 1)
    requires CanonicalUuid(id) && id !in w.used && id !in w.vms && NoneInTheWay(c, w.vms)
    ensures Reaches(c, w, w') && PcIs(w', pid, Opening, Done(Opened(WantedBinding(c, id))))
    ensures Read(c, w').Ok? && Read(c, w').value.phase == Bound(WantedBinding(c, id))
    ensures id in w'.vms && FreshIdAbove(w'.log, top + 1)
  {
    var listing := SpawnOpen(c, w, pid);
    CreateIsPlanned(c, w, listing, pid, Some(INITIAL), DispatchCreateOp(INITIAL));
    var ready := At(listing, pid, StoreRead(DispatchCreateOp(INITIAL)));
    w' := FinishDispatch(c, w, ready, pid, id, top);
  }

  lemma OpenDispatched(c: Config, w: World, pid: nat, id: string, top: U64) returns (w': World)
    requires pid !in w.procs && Read(c, w).Ok? && Read(c, w).value.phase == CreateDispatched(INITIAL)
    requires RoomFor(w.log, top, 0) && CanonicalUuid(id) && OnlyWanted(c, w.vms, id)
    ensures Reaches(c, w, w') && PcIs(w', pid, Opening, Done(Opened(WantedBinding(c, id))))
    ensures Read(c, w').Ok? && Read(c, w').value.phase == Bound(WantedBinding(c, id))
    ensures id in w'.vms && FreshIdAbove(w'.log, top)
  {
    var recovering := SpawnOpen(c, w, pid);
    w' := RecoveryBinds(c, w, recovering, pid, Opening, id, top);
  }

  lemma OpenBound(c: Config, w: World, pid: nat, id: string) returns (w': World)
    requires Inv(c, w) && pid !in w.procs && Read(c, w).Ok? && Read(c, w).value.phase == Bound(WantedBinding(c, id))
    requires id in w.vms && w.vms[id].specFingerprint == c.specFingerprint
    ensures Reaches(c, w, w') && PcIs(w', pid, Opening, Done(Opened(WantedBinding(c, id))))
    ensures w'.log == w.log && w'.vms == w.vms
  {
    ReadFacts(c, w);
    var b := WantedBinding(c, id);
    var checking := SpawnOpen(c, w, pid);
    PresentIsAuthorized(c, w, b);
    AuthorizedTargetIsBoundVm(b, ListingFrom(w.vms, id), b.generation);
    assert FindById(ListingFrom(w.vms, id), id) == Some(Observe(id, w.vms[id]));
    w' := At(checking, pid, Done(Opened(b)));
    MovesOn(c, w, checking, pid, Done(Opened(b)), ListInstances(pid, ListingFrom(w.vms, id)));
  }

  /** The worlds an open process can bring to a bound machine by itself, and that machine. */
  ghost predicate Openable(c: Config, w: World, id: string) {
    && Read(c, w).Ok?
    && match Read(c, w).value.phase
       case Empty => CanonicalUuid(id) && id !in w.used && NameIsFree(c, w.vms)
       case CreatePrepared(_) => CanonicalUuid(id) && id !in w.used && NameIsFree(c, w.vms)
       case CreateDispatched(_) =>
         CanonicalUuid(id) && id in w.vms && w.vms[id] == Wanted(c) && NameIsFree(c, w.vms - {id})
       case Bound(b) => id == b.providerId && id in w.vms && w.vms[id].specFingerprint == c.specFingerprint
       case _ => false
  }

  predicate NameIsFree(c: Config, vms: map<string, Vm>) {
    forall x | x in vms :: vms[x].displayName != c.displayName
  }

  /**
    The safety results are not met by standing still. From every world that names no other
    machine, whatever crashed before, an open process can end with its machine bound: created
    from an empty or prepared ledger, recovered after a dispatched create, or found again.
   */
  lemma CanBeOpened(c: Config, w: World, pid: nat, id: string, top: U64) returns (w': World)
    requires Inv(c, w) && pid !in w.procs && RoomFor(w.log, top, 3) && Openable(c, w, id)
    ensures Reaches(c, w, w') && PcIs(w', pid, Opening, Done(Opened(WantedBinding(c, id))))
    ensures Read(c, w').Ok? && Read(c, w').value.phase == Bound(WantedBinding(c, id))
    ensures OwnedVms(c, w') == {id} && FreshId(w'.log, top + 3)
  {
    var phase := Read(c, w).value.phase;
    ReadFacts(c, w);
    if phase.Bound? {
      assert phase.binding == WantedBinding(c, id);
      w' := OpenBound(c, w, pid, id);
    } else {
      NothingElseClaims(c, w, id);
      match phase {
        case Empty => w' := OpenEmpty(c, w, pid, id, top);
        case CreatePrepared(_) => w' := OpenPrepared(c, w, pid, id, top);
        case CreateDispatched(_) => w' := OpenDispatched(c, w, pid, id, top);
      }
    }
    ReachedInv(c, w, w');
    BoundIsOwned(c, w', id);
  }

  lemma NothingElseClaims(c: Config, w: World, id: string)
    requires Inv(c, w) && Openable(c, w, id) && !Read(c, w).value.phase.Bound?
    ensures if Read(c, w).value.phase.CreateDispatched? then OnlyWanted(c, w.vms, id)
            else id !in w.vms && NoneInTheWay(c, w.vms)
  {
    PhaseAgrees(c, w);
    forall x | x in w.vms && OwnedBy(w.vms[x].ownership, c.Intent())
      ensures x == id && Read(c, w).value.phase.CreateDispatched?
    {
      assert x in OwnedVms(c, w);
      assert Read(c, w).value.phase.CreateDispatched? ==> id in OwnedVms(c, w);
      BornSingleton(c, w, x, if Read(c, w).value.phase.CreateDispatched? then id else x);
    }
  }

  /** One close process alone ends a session whose create was dispatched and whose machine has appeared. */
  lemma DispatchedCanBeClosed(c: Config, w: World, pid: nat, id: string, top: U64) returns (w': World)
    requires Inv(c, w) && pid !in w.procs && RoomFor(w.log, top, 3)
    requires Read(c, w).Ok? && Read(c, w).value.phase.CreateDispatched?
    requires CanonicalUuid(id) && OnlyWanted(c, w.vms, id)
    ensures Reaches(c, w, w') && Closed(w', pid)
    ensures Read(c, w').Ok? && Read(c, w').value.phase.Terminal? && OwnedVms(c, w') == {}
  {
    ReadFacts(c, w);
    var reading := SpawnClose(c, w, pid);
    var bound := RecoveryBinds(c, w, reading, pid, Closing, id, top);
    w' := CloseResolved(c, w, bound, pid, WantedBinding(c, id), false, top + 1);
    ReachedInv(c, w, w');
    PhaseAgrees(c, w');
  }

  lemma BoundIsOwned(c: Config, w: World, id: string)
    requires Inv(c, w) && id in w.vms
    requires Read(c, w).Ok? && Read(c, w).value.phase == Bound(WantedBinding(c, id))
    ensures OwnedVms(c, w) == {id}
  {
    PhaseAgrees(c, w);
    ReadFacts(c, w);
    assert id in OwnedVms(c, w);
  }
}
