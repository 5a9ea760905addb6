/**
  The writer side of the ledger refines the reader side: with one serialised writer
  at a time, whatever the two namespaces do, verification never fails and the ledger
  never forks.
 */
module BindingStoreTheory {
  import opened Wrappers
  import opened Lifecycle
  import opened Ledger
  import opened LedgerTheory
  import opened BindingStore

  // ---------------------------------------------------------------- guards agree

  /** A planned write, turned into a payload and read back, is accepted and gives the promised phase. */
  lemma PlannedWriteIsAccepted(op: StoreOp, phase: Phase, sha: string, own: OwnershipIntent, head: Option<U64>)
    requires CheckArguments(op, own, own).Ok? && PhaseOf(phase, own)
    requires PlanWrite(op, phase).Ok?
    ensures var write := PlanWrite(op, phase).value;
            ApplyRecord(phase, NewPayload(sha, own, head, write), own) == Ok(write.after)
  {
    var write := PlanWrite(op, phase).value;
    BindingSurvivesPayload(write.expected, own);
    BindingSurvivesPayload(write.replacement, own);
  }

  lemma BindingSurvivesPayload(binding: Option<VmBinding>, own: OwnershipIntent)
    requires CheckOptionalBinding(binding, own).Ok?
    ensures CheckBindingPayload(FromBinding(binding)).Ok?
    ensures ToBinding(FromBinding(binding), own) == Ok(binding)
  {
  }

  /** The operation that would have written an accepted payload. */
  function OpFor(payload: Payload, own: OwnershipIntent): StoreOp
    requires ToBinding(payload.expected, own).Ok? && ToBinding(payload.replacement, own).Ok?
    requires payload.generation > 0
    requires payload.transition in {PrepareDelete, DispatchDelete} ==> payload.expected.Some?
  {
    var expected := ToBinding(payload.expected, own).value;
    match payload.transition
    case PrepareCreate => PrepareCreateOp
    case DispatchCreate => DispatchCreateOp(payload.generation)
    case PrepareDelete => PrepareDeleteOp(expected.value)
    case DispatchDelete => DispatchDeleteOp(expected.value)
    case _ => SwapOp(expected, ToBinding(payload.replacement, own).value)
  }

  /**
    The reader accepts nothing the writer could not have planned: for every accepted
    payload there is an operation with valid arguments whose guard admits the phase
    and whose write carries the same fields and the same resulting phase.
   */
  lemma AcceptedPayloadIsPlanned(phase: Phase, payload: Payload, own: OwnershipIntent)
    requires PhaseOf(phase, own) && ApplyRecord(phase, payload, own).Ok?
    ensures ToBinding(payload.expected, own).Ok? && ToBinding(payload.replacement, own).Ok?
    ensures payload.transition in {PrepareDelete, DispatchDelete} ==> payload.expected.Some?
    ensures var op := OpFor(payload, own);
            && CheckArguments(op, own, own).Ok?
            && PlanWrite(op, phase) == Ok(Write(payload.transition, payload.generation,
                                                ToBinding(payload.expected, own).value,
                                                ToBinding(payload.replacement, own).value,
                                                ApplyRecord(phase, payload, own).value))
  {
  }

  /** The binding an operation takes for granted, if any. */
  function AssumedBinding(op: StoreOp): Option<VmBinding> {
    match op
    case PrepareDeleteOp(b) => Some(b)
    case SwapOp(expected, _) => expected
    case _ => None
  }

  /**
    What each refusal means. An intent is spent exactly in its terminal phase; a create or a
    delete is called dispatched exactly when that very one was; a conflict says that the ledger
    is bound to another machine than the one named; and work is called in progress only while
    the ledger is between two other states.
   */
  lemma RefusalsMean(op: StoreOp, phase: Phase)
    requires PlanWrite(op, phase).Err?
    ensures var e := PlanWrite(op, phase).error;
            && (e == TerminalIntentReuse <==> phase.Terminal?)
            && (e == CreateAlreadyDispatched <==> op.DispatchCreateOp? && phase == CreateDispatched(op.generation))
            && (e == DeleteAlreadyDispatched <==> op.DispatchDeleteOp? && phase == DeleteDispatched(op.binding))
            && (e == CompareAndSwapConflict <==>
                  phase.Bound? && AssumedBinding(op).Some? && phase.binding != AssumedBinding(op).value)
            && (e == OperationInProgress <==>
                  && !phase.Terminal?
                  && match op
                     case PrepareCreateOp => true
                     case PrepareDeleteOp(_) => !phase.Bound?
                     case SwapOp(None, Some(_)) => !phase.Empty? && !phase.CreatePrepared?
                     case SwapOp(Some(_), Some(_)) => !phase.Bound?
                     case _ => false)
            && e in {TerminalIntentReuse, CreateAlreadyDispatched, DeleteAlreadyDispatched,
                     CompareAndSwapConflict, OperationInProgress, InvalidTransition}
  {
  }

  /** The phase an operation starts from. */
  ghost predicate StartsFrom(op: StoreOp, phase: Phase) {
    match op
    case PrepareCreateOp => phase == Empty
    case DispatchCreateOp(g) => phase == CreatePrepared(g)
    case PrepareDeleteOp(b) => phase == Bound(b)
    case DispatchDeleteOp(b) => phase == DeletePrepared(b)
    case SwapOp(None, Some(b)) => phase == CreateDispatched(b.generation)
    case SwapOp(Some(b), Some(b')) =>
      phase == Bound(b) && b'.intent == b.intent && b'.providerId != b.providerId && b'.generation == b.generation + 1
    case SwapOp(Some(b), None) => phase == DeleteDispatched(b)
    case SwapOp(None, None) => false
  }

  /** An operation is admitted exactly in the phase it starts from. */
  lemma AdmittedIff(op: StoreOp, phase: Phase)
    ensures PlanWrite(op, phase).Ok? <==> StartsFrom(op, phase)
  {
  }

  ghost predicate OwnBinding(b: Option<VmBinding>, own: OwnershipIntent) {
    b.Some? ==> b.value.intent == own && CanonicalUuid(b.value.providerId)
  }

  /** Arguments pass exactly when the caller's intent and those of all bindings are the store's, with canonical ids. */
  lemma ArgumentsIff(op: StoreOp, caller: OwnershipIntent, own: OwnershipIntent)
    ensures CheckArguments(op, caller, own).Ok? <==>
      && caller == own
      && match op
         case PrepareDeleteOp(b) => OwnBinding(Some(b), own)
         case DispatchDeleteOp(b) => OwnBinding(Some(b), own)
         case SwapOp(expected, replacement) => OwnBinding(expected, own) && OwnBinding(replacement, own)
         case _ => true
    ensures CheckArguments(op, caller, own).Err? ==>
              CheckArguments(op, caller, own).error in {InvalidOwnershipIntent, InvalidProviderUuid}
    ensures CheckArguments(op, caller, own) == Err(InvalidProviderUuid) ==>
              || ((op.PrepareDeleteOp? || op.DispatchDeleteOp?) && !CanonicalUuid(op.binding.providerId))
              || (op.SwapOp? && op.expected.Some? && !CanonicalUuid(op.expected.value.providerId))
              || (op.SwapOp? && op.replacement.Some? && !CanonicalUuid(op.replacement.value.providerId))
  {
  }

  /**
    Success is never claimed unverified, whatever the calls do and whoever else writes: an
    operation that reports success was admitted, appended its record, and read it back at the
    head of the ledger with the promised phase. A refused one leaves the list alone, and a failed
    verification means that the second read showed something else.
   */
  lemma SuccessIsVerified(
    log: seq<Record>, sha: string, own: OwnershipIntent, caller: OwnershipIntent, op: StoreOp, io: Io)
    ensures var (r, log') := RunOp(log, sha, own, caller, op, io);
            var before := ReadState(log, io.readOk, sha, own);
            && (r.Ok? ==>
                  && Reliable(io) && caller == own && before.Ok? && PlanWrite(op, before.value.phase).Ok?
                  && var write := PlanWrite(op, before.value.phase).value;
                     && log' == log + [NewRecord(io.newId, sha, own, before.value.head, write)]
                     && Reconstruct(log', sha, own) == Ok(LedgerState(Some(io.newId), write.after)))
            && (log' != log ==> io.append != FailedBefore && CheckArguments(op, caller, own).Ok?
                                && before.Ok? && PlanWrite(op, before.value.phase).Ok?)
            && (r == Err(WriteVerificationFailed) ==>
                  && log' != log && Reliable(io) && Reconstruct(log', sha, own).Ok?
                  && Reconstruct(log', sha, own).value
                       != LedgerState(Some(io.newId), PlanWrite(op, before.value.phase).value.after))
            && (r == Err(HttpTransport) <==>
                  && CheckArguments(op, caller, own).Ok?
                  && (!io.readOk || (before.Ok? && PlanWrite(op, before.value.phase).Ok?
                                     && (io.append != Appended || !io.rereadOk))))
  {
    NoHttpErrors(log, sha, own, caller, op);
    NoHttpErrors(RunOp(log, sha, own, caller, op, io).1, sha, own, caller, op);
    CallerChecked(op, caller, own);
  }

  lemma CallerChecked(op: StoreOp, caller: OwnershipIntent, own: OwnershipIntent)
    ensures CheckArguments(op, caller, own).Ok? ==> caller == own
  {
  }

  /** Neither the guards nor the reader blame the transport, and neither blames a verification. */
  lemma NoHttpErrors(log: seq<Record>, sha: string, own: OwnershipIntent, caller: OwnershipIntent, op: StoreOp)
    ensures CheckArguments(op, caller, own).Err? ==>
              CheckArguments(op, caller, own).error !in {HttpTransport, WriteVerificationFailed}
    ensures Reconstruct(log, sha, own).Err? ==>
              Reconstruct(log, sha, own).error !in {HttpTransport, WriteVerificationFailed}
    ensures forall phase | PlanWrite(op, phase).Err? ::
              PlanWrite(op, phase).error !in {HttpTransport, WriteVerificationFailed}
  {
    if Reconstruct(log, sha, own).Err? {
      RefusalsByCause(log, sha, own);
      forall r | r in log && CheckEnvelope(r, sha).Err?
        ensures CheckEnvelope(r, sha).error in {InvalidLedgerRecord, InvalidProviderUuid}
      {
        EnvelopeErrors(r, sha);
      }
    }
    forall phase | PlanWrite(op, phase).Err?
      ensures PlanWrite(op, phase).error !in {HttpTransport, WriteVerificationFailed}
    {
      RefusalsMean(op, phase);
    }
  }

  // ---------------------------------------------------------------- what the reader lets in

  function BindingOf(payload: Option<BindingPayload>, own: OwnershipIntent): Option<VmBinding>
    requires CheckBindingPayload(payload).Ok?
  {
    if payload.None? then None else Some(VmBinding(own, payload.value.providerId, payload.value.generation))
  }

  ghost predicate IsWritable(write: Write, own: OwnershipIntent) {
    CheckOptionalBinding(write.expected, own).Ok? && CheckOptionalBinding(write.replacement, own).Ok?
  }

  /** The store of one of the two namespaces could have written the record for this candidate. */
  ghost predicate IsWritten(r: Record, sha: string) {
    exists ns, head, write ::
      IsWritable(write, IntentOf(ns, sha)) && r == NewRecord(r.id, sha, IntentOf(ns, sha), head, write)
  }

  /** The envelope check lets in exactly the records the store can write for this candidate. */
  lemma EnvelopeIffWritten(r: Record, sha: string)
    ensures CheckEnvelope(r, sha).Ok? <==> IsWritten(r, sha)
  {
    if CheckEnvelope(r, sha).Ok? {
      var p := r.payload;
      var ns := if p.intentId == IntentId(Item19, sha) then Item19 else Item20;
      var own := IntentOf(ns, sha);
      var write := Write(p.transition, p.generation, BindingOf(p.expected, own), BindingOf(p.replacement, own), Empty);
      assert IsWritable(write, own) && r == NewRecord(r.id, sha, own, p.predecessor, write);
    }
    if IsWritten(r, sha) {
      var ns, head, write :|
        IsWritable(write, IntentOf(ns, sha)) && r == NewRecord(r.id, sha, IntentOf(ns, sha), head, write);
      NewRecordIsValid(r.id, sha, ns, head, write);
    }
  }

  /** Every record of a ledger that can be read is one the store could have written. */
  lemma ReadableRecordsAreWritten(records: seq<Record>, sha: string, intent: OwnershipIntent)
    requires Reconstruct(records, sha, intent).Ok?
    ensures forall r | r in records :: IsWritten(r, sha)
  {
    SelectFilters(records, sha, intent.id);
    forall r | r in records ensures IsWritten(r, sha) {
      EnvelopeIffWritten(r, sha);
    }
  }

  /** What a written record looks like outside, in the terms of the deployment service. */
  lemma WrittenRecordFields(r: Record, sha: string)
    requires IsWritten(r, sha)
    ensures r.sha == r.gitRef == r.payload.candidateSha == sha
    ensures r.task == "mobile-proxy:acceptance-vm-binding" && r.environment == "acceptance-vm-binding-state"
    ensures r.payload.formatVersion == 2 && r.payload.project == r.payload.managedBy == "mobile-proxy"
    ensures r.payload.scope == Acceptance && r.payload.generation > 0
    ensures r.payload.intentId == "candidate:" + sha || r.payload.intentId == "item20:candidate:" + sha
    ensures r.payload.expected.Some? ==> CanonicalUuid(r.payload.expected.value.providerId)
    ensures r.payload.replacement.Some? ==> CanonicalUuid(r.payload.replacement.value.providerId)
  {
    EnvelopeIffWritten(r, sha);
  }

  // ---------------------------------------------------------------- healthy ledgers

  predicate Increasing(log: seq<Record>) {
    forall i, j | 0 <= i < j < |log| :: log[i].id < log[j].id
  }

  predicate Healthy(log: seq<Record>, sha: string) {
    && ValidSha(sha)
    && AllValid(log, sha)
    && Increasing(log)
    && Reconstruct(log, sha, IntentOf(Item19, sha)).Ok?
    && Reconstruct(log, sha, IntentOf(Item20, sha)).Ok?
  }

  lemma NewRecordIsValid(id: U64, sha: string, ns: Namespace, head: Option<U64>, write: Write)
    requires CheckOptionalBinding(write.expected, IntentOf(ns, sha)).Ok?
    requires CheckOptionalBinding(write.replacement, IntentOf(ns, sha)).Ok?
    ensures CheckEnvelope(NewRecord(id, sha, IntentOf(ns, sha), head, write), sha).Ok?
  {
    BindingSurvivesPayload(write.expected, IntentOf(ns, sha));
    BindingSurvivesPayload(write.replacement, IntentOf(ns, sha));
  }

  lemma PlannedBindingsAreChecked(op: StoreOp, phase: Phase, own: OwnershipIntent)
    requires CheckArguments(op, own, own).Ok? && PlanWrite(op, phase).Ok?
    ensures CheckOptionalBinding(PlanWrite(op, phase).value.expected, own).Ok?
    ensures CheckOptionalBinding(PlanWrite(op, phase).value.replacement, own).Ok?
  {
  }

  /** Replaying one more linked record continues from the state reached so far. */
  lemma ReplaySnoc(chain: seq<Record>, r: Record, intent: OwnershipIntent)
    requires Replay(chain, intent).Ok? && r.id !in Ids(chain)
    requires r.payload.predecessor == Replay(chain, intent).value.head
    ensures Replay(chain + [r], intent)
         == var phase := ApplyRecord(Replay(chain, intent).value.phase, r.payload, intent);
            if phase.Ok? then Ok(LedgerState(Some(r.id), phase.value)) else Err(phase.error)
  {
    assert (chain + [r])[..|chain|] == chain;
  }

  /** Appending a valid record with a new largest id to a reconstructible log. */
  lemma AppendReconstructs(log: seq<Record>, r: Record, sha: string, own: OwnershipIntent)
    requires Reconstruct(log, sha, own).Ok? && CheckEnvelope(r, sha).Ok?
    requires forall x | x in log :: x.id < r.id
    ensures r.payload.intentId != own.id ==> Reconstruct(log + [r], sha, own) == Reconstruct(log, sha, own)
    ensures r.payload.intentId == own.id && r.payload.predecessor == Reconstruct(log, sha, own).value.head ==>
              Reconstruct(log + [r], sha, own)
                == var phase := ApplyRecord(Reconstruct(log, sha, own).value.phase, r.payload, own);
                   if phase.Ok? then Ok(LedgerState(Some(r.id), phase.value)) else Err(phase.error)
  {
    ReconstructedChain(log, sha, own);
    AppendToChain(log, r, sha, own);
    var chain := Chain(log, sha, own);
    assert chain + [] == chain;
    if r.payload.intentId == own.id && r.payload.predecessor == Reconstruct(log, sha, own).value.head {
      forall i | 0 <= i < |chain| ensures chain[i].id < r.id {
        assert chain[i] in chain;
      }
      ReplaySnoc(chain, r, own);
    }
  }

  lemma ReconstructedPhase(log: seq<Record>, sha: string, own: OwnershipIntent)
    requires Reconstruct(log, sha, own).Ok?
    ensures PhaseOf(Reconstruct(log, sha, own).value.phase, own)
  {
    ReconstructedChain(log, sha, own);
    ReplayDeterminesWord(Chain(log, sha, own), own);
  }

  function Other(ns: Namespace): Namespace {
    if ns == Item19 then Item20 else Item19
  }

  /** The outcome a caller is promised: the argument check and the guard, nothing else. */
  function Verdict(log: seq<Record>, sha: string, ns: Namespace, caller: OwnershipIntent, op: StoreOp)
    : Result<Write, StoreError>
    requires Reconstruct(log, sha, IntentOf(ns, sha)).Ok?
  {
    var _ :- CheckArguments(op, caller, IntentOf(ns, sha));
    PlanWrite(op, Reconstruct(log, sha, IntentOf(ns, sha)).value.phase)
  }

  /**
    One serialised operation over a healthy ledger: a refused one appends nothing and
    reports its guard's error; an admitted one succeeds, appends one record, reads back
    exactly the promised phase, and leaves the other namespace's state unchanged.
   */
  lemma SerialisedOperation(log: seq<Record>, sha: string, ns: Namespace, caller: OwnershipIntent, op: StoreOp, io: Io)
    requires Healthy(log, sha) && Reliable(io)
    requires forall x | x in log :: x.id < io.newId
    ensures var own := IntentOf(ns, sha);
            var (result, log') := RunOp(log, sha, own, caller, op, io);
            var verdict := Verdict(log, sha, ns, caller, op);
            && Healthy(log', sha)
            && Reconstruct(log', sha, IntentOf(Other(ns), sha)) == Reconstruct(log, sha, IntentOf(Other(ns), sha))
            && (verdict.Err? ==> result == Err(verdict.error) && log' == log)
            && (verdict.Ok? ==>
                  && result == Ok(())
                  && |log'| == |log| + 1 && log <= log'
                  && Reconstruct(log', sha, own) == Ok(LedgerState(Some(io.newId), verdict.value.after)))
  {
    var own := IntentOf(ns, sha);
    var before := Reconstruct(log, sha, own).value;
    var verdict := Verdict(log, sha, ns, caller, op);
    if verdict.Ok? {
      var r := NewRecord(io.newId, sha, own, before.head, verdict.value);
      CallerIsOwner(op, caller, own);
      ReconstructedPhase(log, sha, own);
      PlannedBindingsAreChecked(op, before.phase, own);
      NewRecordIsValid(io.newId, sha, ns, before.head, verdict.value);
      PlannedWriteIsAccepted(op, before.phase, sha, own, before.head);
      AppendReconstructs(log, r, sha, own);
      IntentIdsDiffer(sha);
      AppendReconstructs(log, r, sha, IntentOf(Other(ns), sha));
      AppendKeepsIncreasing(log, r, sha);
    }
  }

  lemma CallerIsOwner(op: StoreOp, caller: OwnershipIntent, own: OwnershipIntent)
    requires CheckArguments(op, caller, own).Ok?
    ensures caller == own
  {
  }

  lemma AppendKeepsIncreasing(log: seq<Record>, r: Record, sha: string)
    requires Increasing(log) && AllValid(log, sha) && CheckEnvelope(r, sha).Ok?
    requires forall x | x in log :: x.id < r.id
    ensures Increasing(log + [r]) && AllValid(log + [r], sha)
  {
    assert forall i | 0 <= i < |log| :: log[i] in log;
  }

  // ---------------------------------------------------------------- whole runs

  datatype Call = Call(ns: Namespace, caller: OwnershipIntent, op: StoreOp, io: Io)

  function RunCalls(log: seq<Record>, sha: string, calls: seq<Call>): (seq<Result<(), StoreError>>, seq<Record>) {
    if calls == [] then ([], log)
    else
      var n := |calls| - 1;
      var (results, log') := RunCalls(log, sha, calls[..n]);
      var c := calls[n];
      var (result, log'') := RunOp(log', sha, IntentOf(c.ns, sha), c.caller, c.op, c.io);
      (results + [result], log'')
  }

  /** Reliable calls whose ids exceed those of the log they start from and of all earlier calls. */
  predicate Serialised(log: seq<Record>, calls: seq<Call>) {
    && (forall c | c in calls :: Reliable(c.io))
    && (forall c, x | c in calls && x in log :: x.id < c.io.newId)
    && (forall i, j | 0 <= i < j < |calls| :: calls[i].io.newId < calls[j].io.newId)
  }

  lemma FreshIdIsLargest(log: seq<Record>, log': seq<Record>, calls: seq<Call>)
    requires calls != [] && Serialised(log, calls)
    requires forall x | x in log' :: x in log || exists c :: c in calls[..|calls| - 1] && x.id == c.io.newId
    ensures forall x | x in log' :: x.id < calls[|calls| - 1].io.newId
  {
    var n := |calls| - 1;
    forall x | x in log' ensures x.id < calls[n].io.newId {
      if x in log {
        assert calls[n] in calls;
      } else {
        var d :| d in calls[..n] && x.id == d.io.newId;
        var i :| 0 <= i < n && calls[..n][i] == d;
        assert calls[i] == d;
      }
    }
  }

  /** No serialised run of any length, over both namespaces, forks the ledger or fails to verify a write. */
  lemma {:induction false} SerialisedRunsNeverFork(log: seq<Record>, sha: string, calls: seq<Call>)
    requires Healthy(log, sha) && Serialised(log, calls)
    ensures var (results, log') := RunCalls(log, sha, calls);
            && Healthy(log', sha)
            && log <= log'
            && |results| == |calls|
            && (forall x | x in log' :: x in log || exists c :: c in calls && x.id == c.io.newId)
            && (forall r | r in results ::
                  r.Ok? || r.error !in {WriteVerificationFailed, ForkedLedger, InvalidLedgerRecord, HttpTransport})
  {
    if calls != [] {
      var n := |calls| - 1;
      var c := calls[n];
      var earlier := calls[..n];
      assert forall d | d in earlier :: d in calls;
      SerialisedRunsNeverFork(log, sha, earlier);
      var (results, log') := RunCalls(log, sha, earlier);
      FreshIdIsLargest(log, log', calls);
      SerialisedOperation(log', sha, c.ns, c.caller, c.op, c.io);
      GuardErrors(log', sha, c.ns, c.caller, c.op);
      OneRecordPerCall(log', sha, IntentOf(c.ns, sha), c.caller, c.op, c.io);
    }
  }

  lemma OneRecordPerCall(
      log: seq<Record>, sha: string, own: OwnershipIntent, caller: OwnershipIntent, op: StoreOp, io: Io)
    ensures var log' := RunOp(log, sha, own, caller, op, io).1;
            log <= log' && forall x | x in log' :: x in log || x.id == io.newId
  {
  }

  lemma GuardErrors(log: seq<Record>, sha: string, ns: Namespace, caller: OwnershipIntent, op: StoreOp)
    requires Reconstruct(log, sha, IntentOf(ns, sha)).Ok?
    ensures var verdict := Verdict(log, sha, ns, caller, op);
            verdict.Err? ==>
              verdict.error !in {WriteVerificationFailed, ForkedLedger, InvalidLedgerRecord, HttpTransport}
  {
  }

  lemma LastCallIsIsolated(log: seq<Record>, sha: string, calls: seq<Call>)
    requires Healthy(log, sha) && calls != [] && Serialised(log, calls)
    ensures var n := |calls| - 1;
            var other := IntentOf(Other(calls[n].ns), sha);
            Reconstruct(RunCalls(log, sha, calls).1, sha, other)
              == Reconstruct(RunCalls(log, sha, calls[..n]).1, sha, other)
  {
    var n := |calls| - 1;
    var c := calls[n];
    SerialisedPrefix(log, calls);
    SerialisedRunsNeverFork(log, sha, calls[..n]);
    var log' := RunCalls(log, sha, calls[..n]).1;
    FreshIdIsLargest(log, log', calls);
    SerialisedOperation(log', sha, c.ns, c.caller, c.op, c.io);
  }

  lemma SerialisedPrefix(log: seq<Record>, calls: seq<Call>)
    requires calls != [] && Serialised(log, calls)
    ensures Serialised(log, calls[..|calls| - 1])
    ensures Reliable(calls[|calls| - 1].io)
  {
    assert forall d | d in calls[..|calls| - 1] :: d in calls;
    assert calls[|calls| - 1] in calls;
  }

  /** Operations of one namespace, however many, never change what the other namespace reads. */
  lemma {:induction false} NamespaceRunsAreIsolated(log: seq<Record>, sha: string, calls: seq<Call>, ns: Namespace)
    requires Healthy(log, sha) && Serialised(log, calls)
    requires forall i | 0 <= i < |calls| :: calls[i].ns == ns
    ensures Reconstruct(RunCalls(log, sha, calls).1, sha, IntentOf(Other(ns), sha))
         == Reconstruct(log, sha, IntentOf(Other(ns), sha))
  {
    if calls != [] {
      SerialisedPrefix(log, calls);
      NamespaceRunsAreIsolated(log, sha, calls[..|calls| - 1], ns);
      LastCallIsIsolated(log, sha, calls);
    }
  }
}
