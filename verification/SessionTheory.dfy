/**
  Safety of the session protocol over every run: one create call at most, one machine
  at most, deletion only behind its fence, and nothing left once the ledger is terminal.
 */
module SessionTheory {
  import opened Wrappers
  import opened Lifecycle
  import opened Ledger
  import opened LedgerTheory
  import opened BindingStore
  import opened BindingStoreTheory
  import opened Session

  // ---------------------------------------------------------------- the create fence

  predicate FencedBy(c: Config, log: seq<Record>, at: nat, n: nat)
    requires at < |log|
  {
    && at < n <= |log|
    && Reconstruct(log[..n], c.sha, c.Intent()) == Ok(LedgerState(Some(log[at].id), CreateDispatched(INITIAL)))
  }

  /** The record at `at` was once read back as the head of a ledger whose create is dispatched. */
  ghost predicate Fenced(c: Config, log: seq<Record>, at: nat) {
    && at < |log|
    && log[at].payload.intentId == c.Intent().id
    && exists n :: FencedBy(c, log, at, n)
  }

  lemma FencedStable(c: Config, log: seq<Record>, log': seq<Record>, at: nat)
    requires Fenced(c, log, at) && log <= log'
    ensures Fenced(c, log', at)
  {
    var n :| FencedBy(c, log, at, n);
    PrefixAgrees(log, log', n);
    PrefixAgrees(log, log', at + 1);
    assert FencedBy(c, log', at, n);
  }

  lemma PrefixAgrees(log: seq<Record>, log': seq<Record>, n: nat)
    requires log <= log' && n <= |log|
    ensures log'[..n] == log[..n]
    ensures n > 0 ==> log'[n - 1] == log[n - 1]
    ensures forall r | r in log[..n] :: r in log
  {
  }

  /** A dispatched create is always the second record of its chain. */
  lemma DispatchedChain(log: seq<Record>, sha: string, intent: OwnershipIntent)
    requires Reconstruct(log, sha, intent).Ok?
    requires Reconstruct(log, sha, intent).value.phase.CreateDispatched?
    ensures Select(log, sha, intent.id).Ok? && |Chain(log, sha, intent)| == 2
    ensures Reconstruct(log, sha, intent).value.head == Some(Chain(log, sha, intent)[1].id)
  {
    ReconstructedChain(log, sha, intent);
    ReplayDeterminesWord(Chain(log, sha, intent), intent);
    ReplayedChainsAreLinked(Chain(log, sha, intent), intent);
  }

  lemma {:induction false} FenceIdsAgree(c: Config, log: seq<Record>, n: nat, m: nat)
    requires n <= m <= |log|
    requires Reconstruct(log[..n], c.sha, c.Intent()).Ok? && Reconstruct(log[..m], c.sha, c.Intent()).Ok?
    requires Reconstruct(log[..n], c.sha, c.Intent()).value.phase.CreateDispatched?
    requires Reconstruct(log[..m], c.sha, c.Intent()).value.phase.CreateDispatched?
    ensures Reconstruct(log[..n], c.sha, c.Intent()).value.head == Reconstruct(log[..m], c.sha, c.Intent()).value.head
  {
    DispatchedChain(log[..n], c.sha, c.Intent());
    DispatchedChain(log[..m], c.sha, c.Intent());
    forall r | r in log[..n] ensures r in log[..m] {
      var i :| 0 <= i < n && log[..n][i] == r;
      assert log[..m][i] == r;
    }
    GrowthExtendsChain(log[..n], log[..m], c.sha, c.Intent());
  }

  /** Only one position of a ledger can ever have been the create fence, whatever ids records were given. */
  lemma FencedUnique(c: Config, log: seq<Record>, i: nat, j: nat)
    requires Fenced(c, log, i) && Fenced(c, log, j)
    ensures i == j
  {
    var n :| FencedBy(c, log, i, n);
    var m :| FencedBy(c, log, j, m);
    var top := if n <= m then m else n;
    if n <= m { FenceIdsAgree(c, log, n, m); } else { FenceIdsAgree(c, log, m, n); }
    assert log[..top][i] == log[i] && log[..top][j] == log[j];
    if i < j {
      PositionsHaveDistinctIds(log[..top], c.sha, c.Intent(), i, j);
    } else if j < i {
      PositionsHaveDistinctIds(log[..top], c.sha, c.Intent(), j, i);
    }
  }

  /** Once fenced, a readable ledger never shows an earlier phase again. */
  lemma FencedPhase(c: Config, log: seq<Record>, at: nat)
    requires Fenced(c, log, at) && Reconstruct(log, c.sha, c.Intent()).Ok?
    ensures Rank(Reconstruct(log, c.sha, c.Intent()).value.phase) >= 2
  {
    var n :| FencedBy(c, log, at, n);
    DispatchIsNotUndone(log, n, c.sha, c.Intent());
  }

  lemma DispatchIsNotUndone(log: seq<Record>, n: nat, sha: string, intent: OwnershipIntent)
    requires n <= |log|
    requires Reconstruct(log[..n], sha, intent).Ok? && Reconstruct(log, sha, intent).Ok?
    requires Reconstruct(log[..n], sha, intent).value.phase.CreateDispatched?
    ensures Rank(Reconstruct(log, sha, intent).value.phase) >= 2
  {
    PrefixAgrees(log, log, n);
    DispatchedChain(log[..n], sha, intent);
    GrowthExtendsChain(log[..n], log, sha, intent);
    EarlyPhaseMeansShortChain(log, sha, intent);
  }

  lemma EarlyPhaseMeansShortChain(log: seq<Record>, sha: string, intent: OwnershipIntent)
    requires Reconstruct(log, sha, intent).Ok?
    ensures Select(log, sha, intent.id).Ok?
    ensures Rank(Reconstruct(log, sha, intent).value.phase) < 2 ==> |Chain(log, sha, intent)| < 2
  {
    ReconstructedChain(log, sha, intent);
    ReplayDeterminesWord(Chain(log, sha, intent), intent);
  }

  // ---------------------------------------------------------------- the invariant

  predicate BindingOk(c: Config, w: World, b: VmBinding) {
    b.intent == c.Intent() && b.providerId in w.born && b.generation == INITIAL
  }

  predicate IsDispatchDelete(c: Config, r: Record, b: VmBinding) {
    && r.payload.intentId == c.Intent().id
    && r.payload.transition == DispatchDelete
    && r.payload.expected == Some(BindingPayload(b.providerId, b.generation))
  }

  /** The delete fence of exactly this binding is in the ledger. */
  ghost predicate DeleteFenced(c: Config, log: seq<Record>, b: VmBinding) {
    exists i :: 0 <= i < |log| && IsDispatchDelete(c, log[i], b)
  }

  predicate IsClear(c: Config, r: Record) {
    r.payload.intentId == c.Intent().id && r.payload.transition == Clear
  }

  ghost predicate HasClear(c: Config, log: seq<Record>) {
    exists i :: 0 <= i < |log| && IsClear(c, log[i])
  }

  /** The operations a session issues, and what it knows when it issues them. */
  ghost predicate OpOk(c: Config, w: World, op: StoreOp) {
    match op
    case PrepareCreateOp => true
    case DispatchCreateOp(_) => true
    case PrepareDeleteOp(b) => BindingOk(c, w, b)
    case DispatchDeleteOp(b) => BindingOk(c, w, b)
    case SwapOp(None, Some(b)) => BindingOk(c, w, b)
    case SwapOp(Some(b), None) => BindingOk(c, w, b) && b.providerId !in w.vms
    case _ => false
  }

  predicate IsSessionOp(op: StoreOp) {
    op.SwapOp? ==> op.expected.Some? != op.replacement.Some?
  }

  /** The only write a session operation can plan. */
  function WriteFor(op: StoreOp): Write
    requires IsSessionOp(op)
  {
    match op
    case PrepareCreateOp => Write(PrepareCreate, INITIAL, None, None, CreatePrepared(INITIAL))
    case DispatchCreateOp(g) => Write(DispatchCreate, g, None, None, CreateDispatched(g))
    case PrepareDeleteOp(b) => Write(PrepareDelete, b.generation, Some(b), None, DeletePrepared(b))
    case DispatchDeleteOp(b) => Write(DispatchDelete, b.generation, Some(b), None, DeleteDispatched(b))
    case SwapOp(expected, replacement) =>
      if replacement.Some? then Write(Bind, replacement.value.generation, None, replacement, Bound(replacement.value))
      else Write(Clear, expected.value.generation, expected, None, Terminal(expected.value.generation))
  }

  lemma PlanIsWriteFor(op: StoreOp, phase: Phase)
    requires IsSessionOp(op) && PlanWrite(op, phase).Ok?
    ensures PlanWrite(op, phase).value == WriteFor(op)
  {
  }

  /** Process `p` wrote the record at `at` and has not used it for a create call. */
  predicate Holds(w: World, p: nat, at: nat) {
    at < |w.log| == |w.authors| && w.authors[at] == p && at !in w.creates
  }

  ghost predicate PcOk(c: Config, w: World, p: nat, pc: Pc) {
    match pc
    case CheckBound(b) => BindingOk(c, w, b)
    case ResolveDelete(b, _) => BindingOk(c, w, b)
    case StoreRead(op) => OpOk(c, w, op)
    case StoreAppend(op, _, write) => OpOk(c, w, op) && write == WriteFor(op)
    case StoreVerify(op, write, id, at) =>
      && OpOk(c, w, op) && write == WriteFor(op) && Holds(w, p, at)
      && w.log[at].id == id && w.log[at].payload.intentId == c.Intent().id
    case CallCreate(_, at) => Holds(w, p, at) && Fenced(c, w.log, at)
    case CallDelete(b) => BindingOk(c, w, b) && DeleteFenced(c, w.log, b)
    case ConfirmDeleted(b, _) => BindingOk(c, w, b) && DeleteFenced(c, w.log, b)
    case RecoverDelete(b) => BindingOk(c, w, b) && DeleteFenced(c, w.log, b)
    case Done(Opened(b)) => BindingOk(c, w, b)
    case Done(DeletedAndTerminal) => HasClear(c, w.log)
    case Done(AlreadyTerminal) => HasClear(c, w.log)
    case _ => true
  }

  predicate RecordOk(c: Config, w: World, r: Record) {
    r.payload.intentId == c.Intent().id ==>
      && r.payload.transition != Replace
      && (r.payload.expected.Some? ==> r.payload.expected.value.providerId in w.born)
      && (r.payload.replacement.Some? ==>
            r.payload.replacement.value.providerId in w.born && r.payload.replacement.value.generation == INITIAL)
      && (r.payload.transition == Clear ==> w.born != {} && w.born !! w.vms.Keys)
  }

  predicate ProviderOk(c: Config, w: World) {
    && w.vms.Keys <= w.used
    && w.born <= w.used
    && OwnedVms(c, w) <= w.born
    && (forall id | id in w.born && id in w.vms :: w.vms[id].ownership == Exact(ExactOwnership(c.Intent(), INITIAL)))
    && |w.born| + w.inflight <= |w.creates|
  }

  ghost predicate LedgerOk(c: Config, w: World) {
    && ValidSha(c.sha)
    && |w.authors| == |w.log|
    && (forall i | 0 <= i < |w.log| :: RecordOk(c, w, w.log[i]))
  }

  ghost predicate HistoryOk(c: Config, w: World) {
    && |w.creates| <= 1
    && (forall at | at in w.creates :: Fenced(c, w.log, at))
    && (forall b | b in w.deletes :: DeleteFenced(c, w.log, b))
  }

  ghost predicate ProcsOk(c: Config, w: World) {
    forall p | p in w.procs :: PcOk(c, w, p, w.procs[p].pc)
  }

  ghost predicate Inv(c: Config, w: World) {
    LedgerOk(c, w) && ProviderOk(c, w) && HistoryOk(c, w) && ProcsOk(c, w)
  }

  // ---------------------------------------------------------------- stability

  /** How the world may change around a process: things grow, and a dead machine stays dead. */
  predicate Evolves(w: World, w': World) {
    && w.log <= w'.log
    && w.authors <= w'.authors
    && |w.authors| == |w.log| && |w'.authors| == |w'.log|
    && w.born <= w'.born
    && (forall id | id in w.born && id !in w.vms :: id !in w'.vms)
  }

  lemma DeleteFencedStable(c: Config, log: seq<Record>, log': seq<Record>, b: VmBinding)
    requires DeleteFenced(c, log, b) && log <= log'
    ensures DeleteFenced(c, log', b)
  {
    var i :| 0 <= i < |log| && IsDispatchDelete(c, log[i], b);
    assert log'[i] == log[i];
  }

  lemma HasClearStable(c: Config, log: seq<Record>, log': seq<Record>)
    requires HasClear(c, log) && log <= log'
    ensures HasClear(c, log')
  {
    var i :| 0 <= i < |log| && IsClear(c, log[i]);
    assert log'[i] == log[i];
  }

  lemma PcStable(c: Config, w: World, w': World, p: nat, pc: Pc)
    requires Evolves(w, w') && PcOk(c, w, p, pc)
    requires forall at | Holds(w, p, at) :: at !in w'.creates
    ensures PcOk(c, w', p, pc)
  {
    match pc
    case StoreVerify(_, _, _, at) => assert w'.log[at] == w.log[at];
    case CallCreate(_, at) => FencedStable(c, w.log, w'.log, at);
    case CallDelete(b) => DeleteFencedStable(c, w.log, w'.log, b);
    case ConfirmDeleted(b, _) => DeleteFencedStable(c, w.log, w'.log, b);
    case RecoverDelete(b) => DeleteFencedStable(c, w.log, w'.log, b);
    case Done(DeletedAndTerminal) => HasClearStable(c, w.log, w'.log);
    case Done(AlreadyTerminal) => HasClearStable(c, w.log, w'.log);
    case _ =>
  }

  lemma HistoryStable(c: Config, w: World, w': World)
    requires HistoryOk(c, w) && w.log <= w'.log && w'.creates == w.creates && w'.deletes == w.deletes
    ensures HistoryOk(c, w')
  {
    forall at | at in w'.creates ensures Fenced(c, w'.log, at) {
      FencedStable(c, w.log, w'.log, at);
    }
    forall b | b in w'.deletes ensures DeleteFenced(c, w'.log, b) {
      DeleteFencedStable(c, w.log, w'.log, b);
    }
  }

  /** All processes but `pid` keep their facts when no create call of theirs is recorded. */
  lemma ProcsStable(c: Config, w: World, w': World, pid: nat)
    requires ProcsOk(c, w) && Evolves(w, w')
    requires w'.creates == w.creates
          || exists at :: Holds(w, pid, at) && w'.creates == w.creates + [at]
    requires pid in w'.procs ==> PcOk(c, w', pid, w'.procs[pid].pc)
    requires forall p | p in w'.procs && p != pid :: p in w.procs && w'.procs[p] == w.procs[p]
    ensures ProcsOk(c, w')
  {
    forall p | p in w'.procs && p != pid ensures PcOk(c, w', p, w'.procs[p].pc) {
      PcStable(c, w, w', p, w.procs[p].pc);
    }
  }

  // ---------------------------------------------------------------- what a read tells

  predicate ChainOk(c: Config, w: World, chain: seq<Record>) {
    forall i | 0 <= i < |chain| :: chain[i].payload.intentId == c.Intent().id && RecordOk(c, w, chain[i])
  }

  lemma {:induction false} ReplayedBinding(c: Config, w: World, chain: seq<Record>)
    requires ChainOk(c, w, chain) && Replay(chain, c.Intent()).Ok?
    ensures var b := HeldBinding(Replay(chain, c.Intent()).value.phase);
            b.Some? ==> BindingOk(c, w, b.value)
  {
    if chain != [] {
      var n := |chain| - 1;
      ReplayUnfold(chain, c.Intent());
      ReplayedBinding(c, w, chain[..n]);
      assert RecordOk(c, w, chain[n]);
    }
  }

  /** What any process may conclude from a ledger it could read. */
  lemma ReadFacts(c: Config, w: World)
    requires LedgerOk(c, w) && Reconstruct(w.log, c.sha, c.Intent()).Ok?
    ensures var phase := Reconstruct(w.log, c.sha, c.Intent()).value.phase;
            && PhaseOf(phase, c.Intent())
            && (HeldBinding(phase).Some? ==> BindingOk(c, w, HeldBinding(phase).value))
            && (phase.DeleteDispatched? ==> DeleteFenced(c, w.log, phase.binding))
            && (phase.Terminal? ==> HasClear(c, w.log))
  {
    ReconstructedChain(w.log, c.sha, c.Intent());
    var chain := Chain(w.log, c.sha, c.Intent());
    ReplayDeterminesWord(chain, c.Intent());
    forall i | 0 <= i < |chain| ensures chain[i].payload.intentId == c.Intent().id && RecordOk(c, w, chain[i]) {
      assert chain[i] in chain;
    }
    ReplayedBinding(c, w, chain);
    if chain != [] {
      ReplayUnfold(chain, c.Intent());
      var last := chain[|chain| - 1];
      assert last in chain;
      var k :| 0 <= k < |w.log| && w.log[k] == last;
      LastRecordFacts(c, Replay(chain[..|chain| - 1], c.Intent()).value.phase, last);
    }
  }

  /** The record that led to a dispatched delete or to the terminal phase. */
  lemma LastRecordFacts(c: Config, before: Phase, r: Record)
    requires r.payload.intentId == c.Intent().id && ApplyRecord(before, r.payload, c.Intent()).Ok?
    ensures var after := ApplyRecord(before, r.payload, c.Intent()).value;
            && (after.DeleteDispatched? ==> IsDispatchDelete(c, r, after.binding))
            && (after.Terminal? ==> IsClear(c, r))
  {
  }

  // ---------------------------------------------------------------- step by step

  lemma InitEstablishes(c: Config, w: World)
    requires Init(c, w)
    ensures Inv(c, w)
  {
    forall i | 0 <= i < |w.log| ensures RecordOk(c, w, w.log[i]) {
      assert w.log[i] in w.log;
    }
  }

  lemma ReadPc(c: Config, w: World, pid: nat)
    requires Inv(c, w) && pid in w.procs && ReadsLedger(w.procs[pid].pc)
    ensures PcOk(c, w, pid, AfterRead(c, w.procs[pid], Reconstruct(w.log, c.sha, c.Intent())))
  {
    var read := Reconstruct(w.log, c.sha, c.Intent());
    assert PcOk(c, w, pid, w.procs[pid].pc);
    if read.Ok? {
      ReadFacts(c, w);
      match w.procs[pid].pc
      case StoreRead(op) =>
        if PlanWrite(op, read.value.phase).Ok? {
          PlanIsWriteFor(op, read.value.phase);
        }
      case StoreVerify(op, write, id, at) =>
        if read.value == LedgerState(Some(id), write.after) && op.DispatchCreateOp? {
          assert w.log[..|w.log|] == w.log;
          assert FencedBy(c, w.log, at, |w.log|);
        }
      case _ =>
    }
  }

  lemma ListingPc(c: Config, w: World, pid: nat, observed: seq<ObservedVm>)
    requires Inv(c, w) && pid in w.procs && ListsProvider(w.procs[pid].pc) && IsListing(observed, w.vms)
    ensures PcOk(c, w, pid, AfterListing(c, w.procs[pid], observed))
  {
    assert PcOk(c, w, pid, w.procs[pid].pc);
    match w.procs[pid].pc
    case Recover(g, attempt) => RecoverPc(c, w, g, attempt, observed);
    case ConfirmDeleted(b, _) => AbsentPc(c, w, b, observed);
    case RecoverDelete(b) => AbsentPc(c, w, b, observed);
    case _ =>
  }

  lemma RecoverPc(c: Config, w: World, g: Generation, attempt: nat, observed: seq<ObservedVm>)
    requires Inv(c, w) && IsListing(observed, w.vms)
    ensures forall p :: PcOk(c, w, p, AfterRecoverListing(c, g, attempt, observed))
  {
    var fence := CreateFence(c.Intent(), g, c.Desired());
    if fence.Ok? {
      RecoveredVmMatchesFence(fence.value, observed);
      var r := RecoverDispatchedCreate(fence.value, observed);
      if r.Ok? && r.value.Recovered? {
        var vm :| vm in observed && vm.providerId == r.value.binding.providerId
                  && vm.ownership == Exact(ExactOwnership(c.Intent(), g));
        assert vm.providerId in OwnedVms(c, w);
      }
    }
  }

  lemma AbsentPc(c: Config, w: World, b: VmBinding, observed: seq<ObservedVm>)
    requires IsListing(observed, w.vms)
    ensures AuthorizeMutation(b, observed, b.generation) == Err(ProviderResourceNotFound) ==> b.providerId !in w.vms
  {
    NotFoundIffAbsent(b, observed);
    if b.providerId in w.vms {
      assert Observe(b.providerId, w.vms[b.providerId]) in observed;
    }
  }

  lemma BornSingleton(c: Config, w: World, id: string, id': string)
    requires ProviderOk(c, w) && |w.creates| <= 1 && id in w.born && id' in w.born
    ensures id == id'
  {
    assert w.born == {id} + (w.born - {id});
    assert |w.born - {id}| == 0;
  }

  /** The record a process appends satisfies the record invariant. */
  lemma AppendedRecordOk(c: Config, w: World, op: StoreOp, head: Option<U64>, newId: U64)
    requires ProviderOk(c, w) && HistoryOk(c, w) && OpOk(c, w, op)
    ensures RecordOk(c, w, NewRecord(newId, c.sha, c.Intent(), head, WriteFor(op)))
  {
    if op.SwapOp? && op.expected.Some? {
      var id := op.expected.value.providerId;
      forall x | x in w.born ensures x !in w.vms {
        BornSingleton(c, w, id, x);
      }
    }
  }

  lemma AppendStep(c: Config, w: World, w': World, pid: nat, newId: U64, outcome: AppendOutcome)
    requires Inv(c, w) && Next(c, w, w', Append(pid, newId, outcome))
    ensures Inv(c, w')
  {
    var pc := w.procs[pid].pc;
    assert PcOk(c, w, pid, pc);
    AppendedRecordOk(c, w, pc.op, pc.head, newId);
    forall i | 0 <= i < |w'.log| ensures RecordOk(c, w', w'.log[i]) {
      assert i < |w.log| ==> RecordOk(c, w, w.log[i]);
    }
    HistoryStable(c, w, w');
    if outcome == Appended {
      forall at | at in w.creates ensures at != |w.log| {
        assert Fenced(c, w.log, at);
      }
      assert w'.log[|w.log|] == NewRecord(newId, c.sha, c.Intent(), pc.head, pc.write);
    }
    ProcsStable(c, w, w', pid);
  }

  lemma CreateStep(c: Config, w: World, w': World, pid: nat, reaches: bool, ok: bool)
    requires Inv(c, w) && Next(c, w, w', CreateVm(pid, reaches, ok))
    ensures Inv(c, w')
    ensures w.creates == [] && |w'.creates| == 1
  {
    var pc := w.procs[pid].pc;
    assert PcOk(c, w, pid, pc);
    if w.creates != [] {
      assert Fenced(c, w.log, w.creates[0]);
      FencedUnique(c, w.log, w.creates[0], pc.at);
      assert false;
    }
    forall i | 0 <= i < |w'.log| ensures RecordOk(c, w', w'.log[i]) {
      assert RecordOk(c, w, w.log[i]);
    }
    assert OwnedVms(c, w') == OwnedVms(c, w);
    ProcsStable(c, w, w', pid);
  }

  lemma DeleteStep(c: Config, w: World, w': World, pid: nat, ok: bool)
    requires Inv(c, w) && Next(c, w, w', DeleteVm(pid, ok))
    ensures Inv(c, w')
  {
    assert PcOk(c, w, pid, w.procs[pid].pc);
    forall i | 0 <= i < |w'.log| ensures RecordOk(c, w', w'.log[i]) {
      assert RecordOk(c, w, w.log[i]);
    }
    assert OwnedVms(c, w') == OwnedVms(c, w);
    ProcsStable(c, w, w', pid);
  }

  /** Steps that move one process and touch neither ledger nor provider. */
  lemma LocalStep(c: Config, w: World, pid: nat, process: Process)
    requires Inv(c, w) && PcOk(c, w, pid, process.pc)
    ensures Inv(c, w.(procs := w.procs[pid := process]))
  {
    var w' := w.(procs := w.procs[pid := process]);
    forall i | 0 <= i < |w'.log| ensures RecordOk(c, w', w'.log[i]) {
      assert RecordOk(c, w, w.log[i]);
    }
    assert OwnedVms(c, w') == OwnedVms(c, w);
    HistoryStable(c, w, w');
    ProcsStable(c, w, w', pid);
  }

  predicate IsProviderStep(step: Step) {
    || step.Materialise? || step.LoseCreate? || step.RemoveVm?
    || step.AddForeignVm? || step.DriftVm? || step.ForeignRecord?
  }

  /** A materialised create is the only machine of the session, so no Clear record can exist yet. */
  lemma MaterialiseStep(c: Config, w: World, w': World, id: string)
    requires Inv(c, w) && Next(c, w, w', Materialise(id))
    ensures Inv(c, w')
  {
    forall i | 0 <= i < |w'.log| ensures RecordOk(c, w', w'.log[i]) {
      assert RecordOk(c, w, w.log[i]);
      assert w.born == {};
    }
    assert w'.born == w.born + {id};
    HistoryStable(c, w, w');
    EnvironmentProcs(c, w, w');
  }

  lemma EnvironmentProcs(c: Config, w: World, w': World)
    requires ProcsOk(c, w) && Evolves(w, w') && w'.creates == w.creates && w'.procs == w.procs
    ensures ProcsOk(c, w')
  {
    forall p | p in w'.procs ensures PcOk(c, w', p, w'.procs[p].pc) {
      PcStable(c, w, w', p, w.procs[p].pc);
    }
  }

  lemma EnvironmentStep(c: Config, w: World, w': World, step: Step)
    requires Inv(c, w) && Next(c, w, w', step) && IsProviderStep(step) && !step.Materialise?
    ensures Inv(c, w')
  {
    forall i | 0 <= i < |w'.log| ensures RecordOk(c, w', w'.log[i]) {
      if i < |w.log| {
        assert RecordOk(c, w, w.log[i]);
        assert w'.log[i] == w.log[i];
      }
    }
    assert OwnedVms(c, w') <= OwnedVms(c, w);
    HistoryStable(c, w, w');
    EnvironmentProcs(c, w, w');
  }

  lemma StepPreserves(c: Config, w: World, w': World, step: Step)
    requires Inv(c, w) && Next(c, w, w', step)
    ensures Inv(c, w')
  {
    match step
    case Spawn(pid, kind) => LocalStep(c, w, pid, Process(kind, Start));
    case Crash(pid) => LocalStep(c, w, pid, w.procs[pid].(pc := Done(Failed)));
    case ReadLedger(pid) =>
      ReadPc(c, w, pid);
      LocalStep(c, w, pid,
        w.procs[pid].(pc := AfterRead(c, w.procs[pid], Reconstruct(w.log, c.sha, c.Intent()))));
    case ListInstances(pid, observed) =>
      ListingPc(c, w, pid, observed);
      LocalStep(c, w, pid, w.procs[pid].(pc := AfterListing(c, w.procs[pid], observed)));
    case Append(pid, newId, outcome) => AppendStep(c, w, w', pid, newId, outcome);
    case CreateVm(pid, reaches, ok) => CreateStep(c, w, w', pid, reaches, ok);
    case DeleteVm(pid, ok) => DeleteStep(c, w, w', pid, ok);
    case Materialise(id) => MaterialiseStep(c, w, w', id);
    case _ => EnvironmentStep(c, w, w', step);
  }

  // ---------------------------------------------------------------- whole runs

  lemma {:induction false} RunInvariant(c: Config, worlds: seq<World>, steps: seq<Step>, i: nat)
    requires Run(c, worlds, steps) && i < |worlds|
    ensures Inv(c, worlds[i])
  {
    if i == 0 {
      InitEstablishes(c, worlds[0]);
    } else {
      RunInvariant(c, worlds, steps, i - 1);
      assert Next(c, worlds[i - 1], worlds[i - 1 + 1], steps[i - 1]);
      StepPreserves(c, worlds[i - 1], worlds[i], steps[i - 1]);
    }
  }

  lemma {:induction false} HistoryGrows(c: Config, worlds: seq<World>, steps: seq<Step>, i: nat, j: nat)
    requires Run(c, worlds, steps) && i <= j < |worlds|
    ensures worlds[i].creates <= worlds[j].creates && worlds[i].log <= worlds[j].log
  {
    if i < j {
      HistoryGrows(c, worlds, steps, i, j - 1);
      assert Next(c, worlds[j - 1], worlds[j - 1 + 1], steps[j - 1]);
    }
  }

  /**
    At most one create: in every interleaving of any number of open and close processes,
    with crashes anywhere and appends or calls that fail after taking effect, the provider
    create call is made at most once, and only by the author of a record that was read
    back as the head of a ledger in which the create is dispatched.
   */
  lemma AtMostOneCreate(c: Config, worlds: seq<World>, steps: seq<Step>, i: nat)
    requires Run(c, worlds, steps) && i < |steps| && steps[i].CreateVm?
    ensures worlds[i].creates == []
    ensures forall j | 0 <= j < |steps| && steps[j].CreateVm? :: j == i
    ensures steps[i].pid in worlds[i].procs && worlds[i].procs[steps[i].pid].pc.CallCreate?
    ensures var pc := worlds[i].procs[steps[i].pid].pc;
            Holds(worlds[i], steps[i].pid, pc.at) && Fenced(c, worlds[i].log, pc.at)
  {
    CreateIsFirst(c, worlds, steps, i);
    forall j | 0 <= j < |steps| && steps[j].CreateVm? ensures j == i {
      CreateIsFirst(c, worlds, steps, j);
      if i < j {
        HistoryGrows(c, worlds, steps, i + 1, j);
      } else if j < i {
        HistoryGrows(c, worlds, steps, j + 1, i);
      }
    }
  }

  lemma CreateIsFirst(c: Config, worlds: seq<World>, steps: seq<Step>, i: nat)
    requires Run(c, worlds, steps) && i < |steps| && steps[i].CreateVm?
    ensures worlds[i].creates == [] && |worlds[i + 1].creates| == 1
    ensures steps[i].pid in worlds[i].procs && worlds[i].procs[steps[i].pid].pc.CallCreate?
    ensures var pc := worlds[i].procs[steps[i].pid].pc;
            Holds(worlds[i], steps[i].pid, pc.at) && Fenced(c, worlds[i].log, pc.at)
  {
    RunInvariant(c, worlds, steps, i);
    var w, pid := worlds[i], steps[i].pid;
    assert Next(c, worlds[i], worlds[i + 1], steps[i]);
    assert PcOk(c, w, pid, w.procs[pid].pc);
    CreateStep(c, w, worlds[i + 1], pid, steps[i].reaches, steps[i].ok);
  }

  /** Every provider delete call happens with the DispatchDelete record of that exact binding already durable. */
  lemma DeletesAreFenced(c: Config, worlds: seq<World>, steps: seq<Step>, i: nat)
    requires Run(c, worlds, steps) && i < |steps| && steps[i].DeleteVm?
    ensures steps[i].pid in worlds[i].procs && worlds[i].procs[steps[i].pid].pc.CallDelete?
    ensures var b := worlds[i].procs[steps[i].pid].pc.binding;
            DeleteFenced(c, worlds[i].log, b) && b.intent == c.Intent() && b.providerId in worlds[i].born
  {
    RunInvariant(c, worlds, steps, i);
    var w, pid := worlds[i], steps[i].pid;
    assert Next(c, worlds[i], worlds[i + 1], steps[i]);
    assert PcOk(c, w, pid, w.procs[pid].pc);
  }

  /** A Clear record means the session's machine is gone and no create is outstanding. */
  lemma ClearedMeansGone(c: Config, w: World)
    requires Inv(c, w) && HasClear(c, w.log)
    ensures OwnedVms(c, w) == {} && w.inflight == 0
  {
    var i :| 0 <= i < |w.log| && IsClear(c, w.log[i]);
    assert RecordOk(c, w, w.log[i]);
    var id :| id in w.born;
    assert w.born == {id} + (w.born - {id});
    assert OwnedVms(c, w) <= w.born * w.vms.Keys;
  }

  /**
    The joint ledger and provider invariant, in every world of every run: at most one
    machine carries the session's ownership; none does while the ledger reads Empty or
    CreatePrepared; while it reads a binding, that binding names it; and none does once
    it reads Terminal.
   */
  lemma LedgerAndProviderAgree(c: Config, worlds: seq<World>, steps: seq<Step>, i: nat)
    requires Run(c, worlds, steps) && i < |worlds|
    ensures var w := worlds[i];
            && (forall x, y | x in OwnedVms(c, w) && y in OwnedVms(c, w) :: x == y)
            && var read := Reconstruct(w.log, c.sha, c.Intent());
               read.Ok? ==>
                 match read.value.phase
                 case Empty => OwnedVms(c, w) == {} && w.creates == []
                 case CreatePrepared(_) => OwnedVms(c, w) == {} && w.creates == []
                 case CreateDispatched(_) => true
                 case Bound(b) => OwnedVms(c, w) <= {b.providerId}
                 case DeletePrepared(b) => OwnedVms(c, w) <= {b.providerId}
                 case DeleteDispatched(b) => OwnedVms(c, w) <= {b.providerId}
                 case Terminal(_) => OwnedVms(c, w) == {}
  {
    RunInvariant(c, worlds, steps, i);
    var w := worlds[i];
    forall x, y | x in OwnedVms(c, w) && y in OwnedVms(c, w) ensures x == y {
      BornSingleton(c, w, x, y);
    }
    var read := Reconstruct(w.log, c.sha, c.Intent());
    if read.Ok? {
      PhaseAgrees(c, w);
    }
  }

  lemma PhaseAgrees(c: Config, w: World)
    requires Inv(c, w) && Reconstruct(w.log, c.sha, c.Intent()).Ok?
    ensures var phase := Reconstruct(w.log, c.sha, c.Intent()).value.phase;
            && (Rank(phase) < 2 ==> OwnedVms(c, w) == {} && w.creates == [])
            && (HeldBinding(phase).Some? ==> OwnedVms(c, w) <= {HeldBinding(phase).value.providerId})
            && (phase.Terminal? ==> OwnedVms(c, w) == {})
  {
    var phase := Reconstruct(w.log, c.sha, c.Intent()).value.phase;
    ReadFacts(c, w);
    if w.creates != [] {
      FencedPhase(c, w.log, w.creates[0]);
    } else {
      assert w.born == {};
    }
    if HeldBinding(phase).Some? {
      forall x | x in OwnedVms(c, w) ensures x == HeldBinding(phase).value.providerId {
        BornSingleton(c, w, x, HeldBinding(phase).value.providerId);
      }
    }
    if phase.Terminal? {
      ClearedMeansGone(c, w);
    }
  }

  /**
    What the callers are told is true for good: after a close reported a terminal session,
    in that world and every later one no machine carries the ownership and no create is
    outstanding; after an open reported a binding, no other machine can ever carry it.
   */
  lemma ReportedOutcomesHold(c: Config, worlds: seq<World>, steps: seq<Step>, i: nat, j: nat, pid: nat)
    requires Run(c, worlds, steps) && i <= j < |worlds|
    requires pid in worlds[i].procs && worlds[i].procs[pid].pc.Done?
    ensures var outcome := worlds[i].procs[pid].pc.outcome;
            && (outcome == DeletedAndTerminal || outcome == AlreadyTerminal ==>
                  OwnedVms(c, worlds[j]) == {} && worlds[j].inflight == 0)
            && (outcome.Opened? ==> OwnedVms(c, worlds[j]) <= {outcome.binding.providerId})
  {
    RunInvariant(c, worlds, steps, i);
    RunInvariant(c, worlds, steps, j);
    HistoryGrows(c, worlds, steps, i, j);
    BornGrows(c, worlds, steps, i, j);
    var pc := worlds[i].procs[pid].pc;
    assert PcOk(c, worlds[i], pid, pc);
    match pc.outcome
    case Opened(b) =>
      forall x | x in OwnedVms(c, worlds[j]) ensures x == b.providerId {
        BornSingleton(c, worlds[j], x, b.providerId);
      }
    case DeletedAndTerminal => HasClearStable(c, worlds[i].log, worlds[j].log); ClearedMeansGone(c, worlds[j]);
    case AlreadyTerminal => HasClearStable(c, worlds[i].log, worlds[j].log); ClearedMeansGone(c, worlds[j]);
    case _ =>
  }

  lemma {:induction false} BornGrows(c: Config, worlds: seq<World>, steps: seq<Step>, i: nat, j: nat)
    requires Run(c, worlds, steps) && i <= j < |worlds|
    ensures worlds[i].born <= worlds[j].born
  {
    if i < j {
      BornGrows(c, worlds, steps, i, j - 1);
      assert Next(c, worlds[j - 1], worlds[j - 1 + 1], steps[j - 1]);
    }
  }
}
