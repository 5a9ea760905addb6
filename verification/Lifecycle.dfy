/**
  The provider-neutral lifecycle rules of crates/proxy-core: ownership values,
  the planner for a desired VM, the resolver that authorises a mutation of a
  bound VM, and the recovery of a dispatched create.
 */
module Lifecycle {
  import opened Wrappers

  const U64_MAX: nat := 0xFFFF_FFFF_FFFF_FFFF

  type U64 = n: nat | n <= U64_MAX
  type Generation = n: nat | 1 <= n <= U64_MAX witness 1

  const INITIAL: Generation := 1
  const OWNERSHIP_PROJECT := "mobile-proxy"
  const OWNERSHIP_MANAGER := "mobile-proxy"

  /** The checked successor: absent on overflow of the 64-bit counter. */
  function NextGeneration(g: Generation): Option<Generation> {
    if g < U64_MAX then Some(g + 1) else None
  }

  datatype LifecycleScope = Acceptance | Production

  datatype OwnershipIntent = OwnershipIntent(scope: LifecycleScope, id: string)

  datatype OwnershipMetadata = OwnershipMetadata(
    project: string,
    managedBy: string,
    scope: LifecycleScope,
    intentId: string,
    generation: Generation)
  {
    predicate ClaimsIntent(intent: OwnershipIntent) {
      && project == OWNERSHIP_PROJECT
      && managedBy == OWNERSHIP_MANAGER
      && scope == intent.scope
      && intentId == intent.id
    }

    predicate MatchesExceptGeneration(other: OwnershipMetadata) {
      && project == other.project
      && managedBy == other.managedBy
      && scope == other.scope
      && intentId == other.intentId
    }
  }

  function ExactOwnership(intent: OwnershipIntent, generation: Generation): OwnershipMetadata {
    OwnershipMetadata(OWNERSHIP_PROJECT, OWNERSHIP_MANAGER, intent.scope, intent.id, generation)
  }

  datatype OwnershipObservation = Exact(metadata: OwnershipMetadata) | Missing | Conflicting

  datatype ObservedVm = ObservedVm(
    providerId: string,
    displayName: string,
    ownership: OwnershipObservation,
    specFingerprint: string)

  datatype VmBinding = VmBinding(intent: OwnershipIntent, providerId: string, generation: Generation)

  datatype DesiredVm = DesiredVm(intent: OwnershipIntent, displayName: string, specFingerprint: string)

  datatype MutationTarget = MutationTarget(providerId: string, intent: OwnershipIntent, generation: Generation)

  datatype ReconcilePlan =
    | Create(intent: OwnershipIntent, generation: Generation)
    | Noop(target: MutationTarget)
    | Reconfigure(target: MutationTarget)

  datatype LifecycleError =
    | OwnershipIntentMismatch
    | ExpectedGenerationRequired
    | UnexpectedGenerationForCreate
    | StaleGeneration
    | ProviderResourceNotFound
    | ProviderIdentityMismatch
    | MissingOwnership
    | OwnershipMetadataMismatch
    | ConflictingOwnershipMetadata
    | AmbiguousResourceSet
    | DuplicateOwnershipClaim
    | NeighboringOrUnboundResource

  predicate OwnedBy(ownership: OwnershipObservation, intent: OwnershipIntent) {
    ownership.Exact? && ownership.metadata.ClaimsIntent(intent)
  }

  predicate Claims(vm: ObservedVm, intent: OwnershipIntent) {
    OwnedBy(vm.ownership, intent)
  }

  /** The observed machines that satisfy `keep`, in listing order. */
  function Filter(observed: seq<ObservedVm>, keep: ObservedVm -> bool): (kept: seq<ObservedVm>)
    ensures forall vm :: vm in kept <==> vm in observed && keep(vm)
  {
    if observed == [] then []
    else if keep(observed[0]) then [observed[0]] + Filter(observed[1..], keep)
    else Filter(observed[1..], keep)
  }

  function OwnershipClaims(observed: seq<ObservedVm>, intent: OwnershipIntent): seq<ObservedVm> {
    Filter(observed, vm => Claims(vm, intent))
  }

  function SameName(observed: seq<ObservedVm>, name: string): seq<ObservedVm> {
    Filter(observed, (vm: ObservedVm) => vm.displayName == name)
  }

  function FindById(observed: seq<ObservedVm>, id: string): (found: Option<ObservedVm>)
    ensures found.Some? ==> found.value in observed && found.value.providerId == id
    ensures found.None? ==> forall vm :: vm in observed ==> vm.providerId != id
  {
    if observed == [] then None
    else if observed[0].providerId == id then Some(observed[0])
    else FindById(observed[1..], id)
  }

  function PlanPresent(
    binding: Option<VmBinding>,
    observed: seq<ObservedVm>,
    desired: DesiredVm,
    expectedGeneration: Option<Generation>): Result<ReconcilePlan, LifecycleError>
  {
    match binding
    case None => PlanUnbound(observed, desired, expectedGeneration)
    case Some(b) => PlanBound(b, observed, desired, expectedGeneration)
  }

  function PlanUnbound(observed: seq<ObservedVm>, desired: DesiredVm, expectedGeneration: Option<Generation>)
    : Result<ReconcilePlan, LifecycleError>
  {
    if expectedGeneration.Some? then Err(UnexpectedGenerationForCreate)
    else
      var claims := OwnershipClaims(observed, desired.intent);
      var sameName := SameName(observed, desired.displayName);
      if |claims| > 1 then Err(DuplicateOwnershipClaim)
      else if |claims| == 1 then Err(NeighboringOrUnboundResource)
      else if exists vm | vm in sameName :: vm.ownership.Conflicting? then Err(ConflictingOwnershipMetadata)
      else if |sameName| > 1 then Err(AmbiguousResourceSet)
      else if |sameName| == 1 then Err(NeighboringOrUnboundResource)
      else Ok(Create(desired.intent, INITIAL))
  }

  function PlanBound(
    binding: VmBinding,
    observed: seq<ObservedVm>,
    desired: DesiredVm,
    expectedGeneration: Option<Generation>): Result<ReconcilePlan, LifecycleError>
  {
    if binding.intent != desired.intent then Err(OwnershipIntentMismatch)
    else if expectedGeneration.None? then Err(ExpectedGenerationRequired)
    else
      var target :- AuthorizeMutation(binding, observed, expectedGeneration.value);
      match FindById(observed, target.providerId)
      case None => Err(ProviderResourceNotFound)
      case Some(vm) =>
        if vm.specFingerprint == desired.specFingerprint then Ok(Noop(target)) else Ok(Reconfigure(target))
  }

  function MetadataError(actual: OwnershipMetadata, expected: OwnershipMetadata): LifecycleError {
    if actual.MatchesExceptGeneration(expected) then StaleGeneration else OwnershipMetadataMismatch
  }

  /** The verdict on the observation that carries the bound id, if there is one. */
  function BoundObservationError(found: Option<ObservedVm>, expected: OwnershipMetadata): Option<LifecycleError> {
    match found
    case None => None
    case Some(vm) =>
      match vm.ownership
      case Missing => Some(MissingOwnership)
      case Conflicting => Some(ConflictingOwnershipMetadata)
      case Exact(metadata) => if metadata == expected then None else Some(MetadataError(metadata, expected))
  }

  /** authorize_mutation, whose kind argument has no effect, inlined with resolve_bound_resource. */
  function AuthorizeMutation(binding: VmBinding, observed: seq<ObservedVm>, expectedGeneration: Generation)
    : Result<MutationTarget, LifecycleError>
  {
    var expected := ExactOwnership(binding.intent, binding.generation);
    var early := BoundObservationError(FindById(observed, binding.providerId), expected);
    var claims := OwnershipClaims(observed, binding.intent);
    if binding.generation != expectedGeneration then Err(StaleGeneration)
    else if early.Some? then Err(early.value)
    else if |claims| > 1 then Err(DuplicateOwnershipClaim)
    else if |claims| == 0 then Err(ProviderResourceNotFound)
    else if claims[0].providerId != binding.providerId then Err(ProviderIdentityMismatch)
    else if !claims[0].ownership.Exact? then Err(MissingOwnership)
    else if claims[0].ownership.metadata != expected then Err(MetadataError(claims[0].ownership.metadata, expected))
    else Ok(MutationTarget(binding.providerId, binding.intent, binding.generation))
  }

  // ---------------------------------------------------------------- create dispatch

  datatype CreateDispatchError =
    | FenceIntentMismatch
    | UnexpectedGeneration
    | FenceDuplicateClaim
    | FenceConflictingMetadata
    | FenceAmbiguousResourceSet
    | FenceNeighboringResource
    | FenceStaleGeneration
    | ObservedCreateMismatch

  datatype CreateDispatchFence = CreateDispatchFence(
    intent: OwnershipIntent,
    generation: Generation,
    displayName: string,
    specFingerprint: string)

  datatype CreateRecovery = AwaitProvider | Recovered(binding: VmBinding)

  function CreateFence(intent: OwnershipIntent, generation: Generation, desired: DesiredVm)
    : Result<CreateDispatchFence, CreateDispatchError>
  {
    if intent != desired.intent then Err(FenceIntentMismatch)
    else if generation != INITIAL then Err(UnexpectedGeneration)
    else Ok(CreateDispatchFence(desired.intent, generation, desired.displayName, desired.specFingerprint))
  }

  function RecoverDispatchedCreate(fence: CreateDispatchFence, observed: seq<ObservedVm>)
    : Result<CreateRecovery, CreateDispatchError>
  {
    var claims := OwnershipClaims(observed, fence.intent);
    var sameName := SameName(observed, fence.displayName);
    if |claims| > 1 then Err(FenceDuplicateClaim)
    else if exists vm | vm in sameName :: vm.ownership.Conflicting? then Err(FenceConflictingMetadata)
    else if |sameName| > 1 then Err(FenceAmbiguousResourceSet)
    else if |claims| == 0 then
      if |sameName| == 1 then Err(FenceNeighboringResource) else Ok(AwaitProvider)
    else if |sameName| != 1 || sameName[0].providerId != claims[0].providerId then Err(ObservedCreateMismatch)
    else if claims[0].ownership != Exact(ExactOwnership(fence.intent, fence.generation)) then Err(FenceStaleGeneration)
    else if claims[0].specFingerprint != fence.specFingerprint then Err(ObservedCreateMismatch)
    else Ok(Recovered(VmBinding(fence.intent, claims[0].providerId, fence.generation)))
  }

  // ---------------------------------------------------------------- what callers rely on

  /** The ownership a session stamps on its machine. */
  lemma OwnershipStamp(intent: OwnershipIntent, g: Generation)
    ensures ExactOwnership(intent, g) == OwnershipMetadata("mobile-proxy", "mobile-proxy", intent.scope, intent.id, g)
  {
  }

  /** A machine is owned by an intent exactly when it bears its stamp of some generation. */
  lemma OwnedIff(ownership: OwnershipObservation, intent: OwnershipIntent)
    ensures OwnedBy(ownership, intent) <==> exists g: Generation :: ownership == Exact(ExactOwnership(intent, g))
  {
    if OwnedBy(ownership, intent) {
      assert ownership == Exact(ExactOwnership(intent, ownership.metadata.generation));
    }
  }

  /** Generations count from one to the largest 64-bit number and stop there. */
  lemma Generations(g: Generation)
    ensures 1 == INITIAL <= g <= 0xFFFF_FFFF_FFFF_FFFF
    ensures NextGeneration(g).None? <==> g == 0xFFFF_FFFF_FFFF_FFFF
    ensures NextGeneration(g).Some? ==> NextGeneration(g).value == g + 1
  {
  }

  /** A create is planned exactly when nothing observed claims the intent or carries the desired name. */
  lemma CreatePlannedIffUnclaimed(observed: seq<ObservedVm>, desired: DesiredVm)
    ensures PlanPresent(None, observed, desired, None) == Ok(Create(desired.intent, INITIAL))
       <==> forall vm :: vm in observed ==> !Claims(vm, desired.intent) && vm.displayName != desired.displayName
  {
    var claims := OwnershipClaims(observed, desired.intent);
    var sameName := SameName(observed, desired.displayName);
    if |claims| >= 1 {
      assert claims[0] in observed;
    } else if |sameName| >= 1 {
      assert sameName[0] in observed;
    } else {
      forall vm | vm in observed ensures !Claims(vm, desired.intent) && vm.displayName != desired.displayName {
        assert vm !in claims && vm !in sameName;
      }
    }
  }

  /** Exactly one place of the listing satisfies `keep`. */
  ghost predicate OnlyAt(observed: seq<ObservedVm>, keep: ObservedVm -> bool, i: int) {
    0 <= i < |observed| && keep(observed[i]) && forall j | 0 <= j < |observed| && j != i :: !keep(observed[j])
  }

  lemma {:induction false} FilterNone(observed: seq<ObservedVm>, keep: ObservedVm -> bool)
    ensures |Filter(observed, keep)| == 0 <==> forall i | 0 <= i < |observed| :: !keep(observed[i])
  {
    if observed != [] {
      FilterNone(observed[1..], keep);
      assert forall i | 0 <= i < |observed| - 1 :: observed[1..][i] == observed[i + 1];
      if forall i | 0 <= i < |observed[1..]| :: !keep(observed[1..][i]) {
        assert forall i | 1 <= i < |observed| :: observed[i] == observed[1..][i - 1];
      }
    }
  }

  lemma {:induction false} FilterOne(observed: seq<ObservedVm>, keep: ObservedVm -> bool)
    ensures |Filter(observed, keep)| == 1 <==> exists i :: OnlyAt(observed, keep, i)
    ensures forall i | OnlyAt(observed, keep, i) :: Filter(observed, keep) == [observed[i]]
  {
    if observed != [] {
      var rest := observed[1..];
      assert forall i | 0 <= i < |rest| :: rest[i] == observed[i + 1];
      if keep(observed[0]) {
        FilterNone(rest, keep);
        if Filter(rest, keep) == [] {
          assert OnlyAt(observed, keep, 0) by {
            assert forall j | 1 <= j < |observed| :: observed[j] == rest[j - 1];
          }
        }
        forall i | OnlyAt(observed, keep, i) ensures i == 0 && Filter(rest, keep) == [] {
          forall j | 0 <= j < |rest| ensures !keep(rest[j]) {
            assert rest[j] == observed[j + 1];
          }
        }
      } else {
        FilterOne(rest, keep);
        if i :| OnlyAt(rest, keep, i) {
          assert forall j | 1 <= j < |observed| :: observed[j] == rest[j - 1];
          assert OnlyAt(observed, keep, i + 1);
        }
        forall i | OnlyAt(observed, keep, i) ensures OnlyAt(rest, keep, i - 1) && rest[i - 1] == observed[i] {
          assert i != 0;
        }
      }
    }
  }

  predicate NoneClaims(observed: seq<ObservedVm>, intent: OwnershipIntent) {
    forall i | 0 <= i < |observed| :: !Claims(observed[i], intent)
  }

  /** The only claimant of the intent is at this place. */
  ghost predicate ClaimsOnlyAt(observed: seq<ObservedVm>, intent: OwnershipIntent, i: int) {
    OnlyAt(observed, vm => Claims(vm, intent), i)
  }

  /** The only machine of this name is at this place. */
  ghost predicate NamedOnlyAt(observed: seq<ObservedVm>, name: string, i: int) {
    OnlyAt(observed, (vm: ObservedVm) => vm.displayName == name, i)
  }

  lemma ClaimsOne(observed: seq<ObservedVm>, intent: OwnershipIntent)
    ensures |OwnershipClaims(observed, intent)| == 0 <==> NoneClaims(observed, intent)
    ensures |OwnershipClaims(observed, intent)| == 1 <==> exists i :: ClaimsOnlyAt(observed, intent, i)
    ensures forall i | ClaimsOnlyAt(observed, intent, i) :: OwnershipClaims(observed, intent) == [observed[i]]
  {
    var keep := vm => Claims(vm, intent);
    FilterNone(observed, keep);
    FilterOne(observed, keep);
    if i :| OnlyAt(observed, keep, i) {
      assert ClaimsOnlyAt(observed, intent, i);
    }
  }

  lemma NamesOne(observed: seq<ObservedVm>, name: string)
    ensures |SameName(observed, name)| == 0 <==> forall j | 0 <= j < |observed| :: observed[j].displayName != name
    ensures |SameName(observed, name)| == 1 <==> exists i :: NamedOnlyAt(observed, name, i)
    ensures forall i | NamedOnlyAt(observed, name, i) :: SameName(observed, name) == [observed[i]]
  {
    var keep := (vm: ObservedVm) => vm.displayName == name;
    FilterNone(observed, keep);
    FilterOne(observed, keep);
    if i :| OnlyAt(observed, keep, i) {
      assert NamedOnlyAt(observed, name, i);
    }
  }

  /** A mutation is authorised exactly for the bound machine, exactly owned, when nothing else claims the intent. */
  lemma AuthorizedIff(binding: VmBinding, observed: seq<ObservedVm>, g: Generation)
    ensures AuthorizeMutation(binding, observed, g).Ok? <==>
      && g == binding.generation
      && exists i :: ClaimsOnlyAt(observed, binding.intent, i)
                     && observed[i].providerId == binding.providerId
                     && observed[i].ownership == Exact(ExactOwnership(binding.intent, binding.generation))
                     && forall j | 0 <= j < i :: observed[j].providerId != binding.providerId
  {
    var expected := ExactOwnership(binding.intent, binding.generation);
    var found := FindById(observed, binding.providerId);
    ClaimsOne(observed, binding.intent);
    if i :| ClaimsOnlyAt(observed, binding.intent, i)
            && observed[i].providerId == binding.providerId && observed[i].ownership == Exact(expected)
            && forall j | 0 <= j < i :: observed[j].providerId != binding.providerId {
      FoundFirst(observed, binding.providerId, i);
    }
    if AuthorizeMutation(binding, observed, g).Ok? {
      var i :| ClaimsOnlyAt(observed, binding.intent, i);
      var f := FoundAt(observed, binding.providerId);
      assert Claims(observed[f], binding.intent);
      assert f == i;
    }
  }

  lemma {:induction false} FoundFirst(observed: seq<ObservedVm>, id: string, i: nat)
    requires i < |observed| && observed[i].providerId == id && forall j | 0 <= j < i :: observed[j].providerId != id
    ensures FindById(observed, id) == Some(observed[i])
  {
    if i > 0 {
      assert observed[0].providerId != id;
      FoundFirst(observed[1..], id, i - 1);
    }
  }

  lemma {:induction false} FoundAt(observed: seq<ObservedVm>, id: string) returns (i: nat)
    requires exists vm :: vm in observed && vm.providerId == id
    ensures i < |observed| && FindById(observed, id) == Some(observed[i]) && observed[i].providerId == id
    ensures forall j | 0 <= j < i :: observed[j].providerId != id
  {
    if observed[0].providerId == id {
      i := 0;
    } else {
      assert observed == [observed[0]] + observed[1..];
      i := FoundAt(observed[1..], id);
      i := i + 1;
      assert forall j | 1 <= j < i :: observed[j] == observed[1..][j - 1];
    }
  }

  /**
    Recovery finds its machine exactly when one listed machine claims the intent and one has the
    name, they are the same machine, and it has the fence's ownership and specification; it goes
    on waiting exactly when no listed machine does either.
   */
  lemma RecoveryIff(fence: CreateDispatchFence, observed: seq<ObservedVm>, b: VmBinding)
    ensures RecoverDispatchedCreate(fence, observed) == Ok(Recovered(b)) <==>
      exists i, j :: ClaimsOnlyAt(observed, fence.intent, i) && NamedOnlyAt(observed, fence.displayName, j)
                     && observed[i].providerId == observed[j].providerId && !observed[j].ownership.Conflicting?
                     && observed[i].ownership == Exact(ExactOwnership(fence.intent, fence.generation))
                     && observed[i].specFingerprint == fence.specFingerprint
                     && b == VmBinding(fence.intent, observed[i].providerId, fence.generation)
    ensures RecoverDispatchedCreate(fence, observed) == Ok(AwaitProvider) <==>
      && NoneClaims(observed, fence.intent)
      && forall j | 0 <= j < |observed| :: observed[j].displayName != fence.displayName
  {
    ClaimsOne(observed, fence.intent);
    NamesOne(observed, fence.displayName);
    NoConflict(observed, fence.displayName);
    var r := RecoverDispatchedCreate(fence, observed);
    if r.Ok? && r.value.Recovered? {
      var i :| ClaimsOnlyAt(observed, fence.intent, i);
      var j :| NamedOnlyAt(observed, fence.displayName, j);
      assert SameName(observed, fence.displayName) == [observed[j]];
    }
  }

  /** At least two places of the listing satisfy `keep`. */
  ghost predicate Repeated(observed: seq<ObservedVm>, keep: ObservedVm -> bool) {
    exists i, j :: 0 <= i < j < |observed| && keep(observed[i]) && keep(observed[j])
  }

  /** Three cases: nowhere, in one place, in several. */
  lemma FilterMany(observed: seq<ObservedVm>, keep: ObservedVm -> bool)
    ensures |Filter(observed, keep)| > 1 <==> Repeated(observed, keep)
  {
    FilterNone(observed, keep);
    FilterOne(observed, keep);
    if |Filter(observed, keep)| > 1 {
      var i :| 0 <= i < |observed| && keep(observed[i]);
      assert !OnlyAt(observed, keep, i);
      var j :| 0 <= j < |observed| && j != i && keep(observed[j]);
      if i < j {
        assert keep(observed[i]) && keep(observed[j]);
      } else {
        assert keep(observed[j]) && keep(observed[i]);
      }
    }
    if i, j :| 0 <= i < j < |observed| && keep(observed[i]) && keep(observed[j]) {
      forall k ensures !OnlyAt(observed, keep, k) {
        assert k != i || k != j;
      }
    }
  }

  ghost predicate ClaimedTwice(observed: seq<ObservedVm>, intent: OwnershipIntent) {
    exists i, j :: 0 <= i < j < |observed| && Claims(observed[i], intent) && Claims(observed[j], intent)
  }

  ghost predicate NamedTwice(observed: seq<ObservedVm>, name: string) {
    exists i, j :: 0 <= i < j < |observed| && observed[i].displayName == observed[j].displayName == name
  }

  lemma ListedTwice(observed: seq<ObservedVm>, intent: OwnershipIntent, name: string)
    ensures |OwnershipClaims(observed, intent)| > 1 <==> ClaimedTwice(observed, intent)
    ensures |SameName(observed, name)| > 1 <==> NamedTwice(observed, name)
  {
    var claims, named := vm => Claims(vm, intent), (vm: ObservedVm) => vm.displayName == name;
    FilterMany(observed, claims);
    FilterMany(observed, named);
    assert Repeated(observed, claims) <==> ClaimedTwice(observed, intent);
    assert Repeated(observed, named) <==> NamedTwice(observed, name);
  }

  ghost predicate NamedInConflict(observed: seq<ObservedVm>, name: string) {
    exists j :: 0 <= j < |observed| && observed[j].displayName == name && observed[j].ownership.Conflicting?
  }

  /** Why no create is planned, cause by cause. */
  lemma PlanRefusals(observed: seq<ObservedVm>, desired: DesiredVm, g: Generation)
    ensures PlanPresent(None, observed, desired, Some(g)) == Err(UnexpectedGenerationForCreate)
    ensures var plan, none := PlanPresent(None, observed, desired, None), NoneClaims(observed, desired.intent);
            var conflict := NamedInConflict(observed, desired.displayName);
            var twice := NamedTwice(observed, desired.displayName);
            plan.Err? ==>
              && (plan.error == DuplicateOwnershipClaim <==> ClaimedTwice(observed, desired.intent))
              && (plan.error == ConflictingOwnershipMetadata <==> none && conflict)
              && (plan.error == AmbiguousResourceSet <==> none && !conflict && twice)
              && plan.error in {DuplicateOwnershipClaim, ConflictingOwnershipMetadata, AmbiguousResourceSet,
                                NeighboringOrUnboundResource}
  {
    ClaimsOne(observed, desired.intent);
    ListedTwice(observed, desired.intent, desired.displayName);
    NoConflict(observed, desired.displayName);
  }

  /** A bound plan changes nothing exactly when the machine is authorised and has the wanted specification. */
  lemma PlanBoundIff(b: VmBinding, observed: seq<ObservedVm>, desired: DesiredVm, g: Option<Generation>)
    ensures var plan := PlanPresent(Some(b), observed, desired, g);
            && (plan.Ok? <==> b.intent == desired.intent && g.Some? && AuthorizeMutation(b, observed, g.value).Ok?)
            && (plan.Ok? ==>
                  && plan.value == (if FindById(observed, b.providerId).value.specFingerprint == desired.specFingerprint
                                    then Noop(MutationTarget(b.providerId, b.intent, b.generation))
                                    else Reconfigure(MutationTarget(b.providerId, b.intent, b.generation))))
            && (plan == Err(OwnershipIntentMismatch) <==> b.intent != desired.intent)
            && (plan == Err(ExpectedGenerationRequired) <==> b.intent == desired.intent && g.None?)
  {
    if g.Some? && AuthorizeMutation(b, observed, g.value).Ok? {
      AuthorizedIff(b, observed, g.value);
      var i :| ClaimsOnlyAt(observed, b.intent, i) && observed[i].providerId == b.providerId;
      assert observed[i] in observed;
    }
  }

  /** Why a mutation is not authorised, cause by cause; the machine with the bound id is looked at first. */
  lemma AuthorizeRefusals(b: VmBinding, observed: seq<ObservedVm>, g: Generation)
    requires AuthorizeMutation(b, observed, g).Err?
    ensures var e, found := AuthorizeMutation(b, observed, g).error, FindById(observed, b.providerId);
            var stamp := ExactOwnership(b.intent, b.generation);
            if g != b.generation then e == StaleGeneration
            else if found.Some? && found.value.ownership == Missing then e == MissingOwnership
            else if found.Some? && found.value.ownership == Conflicting then e == ConflictingOwnershipMetadata
            else if found.Some? && found.value.ownership != Exact(stamp) then
              e == if OwnedBy(found.value.ownership, b.intent) then StaleGeneration else OwnershipMetadataMismatch
            else if ClaimedTwice(observed, b.intent) then e == DuplicateOwnershipClaim
            else if NoneClaims(observed, b.intent) then e == ProviderResourceNotFound
            else e == ProviderIdentityMismatch
  {
    ClaimsOne(observed, b.intent);
    ListedTwice(observed, b.intent, "");
    var found := FindById(observed, b.providerId);
    if found.Some? {
      var f := FoundAt(observed, b.providerId);
    }
  }

  lemma NoConflict(observed: seq<ObservedVm>, name: string)
    ensures (exists vm | vm in SameName(observed, name) :: vm.ownership.Conflicting?)
       <==> exists j :: 0 <= j < |observed| && observed[j].displayName == name && observed[j].ownership.Conflicting?
  {
    if vm :| vm in SameName(observed, name) && vm.ownership.Conflicting? {
      assert vm in observed;
    }
    if j :| 0 <= j < |observed| && observed[j].displayName == name && observed[j].ownership.Conflicting? {
      assert observed[j] in SameName(observed, name);
    }
  }

  /** Deletion is authorised only for a listed VM with the bound id and exactly the bound ownership. */
  lemma AuthorizedTargetIsBoundVm(binding: VmBinding, observed: seq<ObservedVm>, expectedGeneration: Generation)
    ensures AuthorizeMutation(binding, observed, expectedGeneration).Ok? ==>
              && AuthorizeMutation(binding, observed, expectedGeneration).value
                   == MutationTarget(binding.providerId, binding.intent, binding.generation)
              && exists vm :: vm in observed && vm.providerId == binding.providerId
                              && vm.ownership == Exact(ExactOwnership(binding.intent, binding.generation))
  {
    var claims := OwnershipClaims(observed, binding.intent);
    if AuthorizeMutation(binding, observed, expectedGeneration).Ok? {
      assert claims[0] in observed;
    }
  }

  /** "Not found" is reported exactly when the bound id is unlisted and nothing listed claims the intent. */
  lemma NotFoundIffAbsent(binding: VmBinding, observed: seq<ObservedVm>)
    ensures AuthorizeMutation(binding, observed, binding.generation) == Err(ProviderResourceNotFound)
       <==> forall vm :: vm in observed ==> vm.providerId != binding.providerId && !Claims(vm, binding.intent)
  {
    var expected := ExactOwnership(binding.intent, binding.generation);
    var found := FindById(observed, binding.providerId);
    var claims := OwnershipClaims(observed, binding.intent);
    if found.Some? && BoundObservationError(found, expected).None? {
      assert Claims(found.value, binding.intent);
      assert found.value in claims;
    }
    if |claims| >= 1 {
      assert claims[0] in observed;
    }
    forall vm | vm in observed && Claims(vm, binding.intent) ensures |claims| >= 1 {
      assert vm in claims;
    }
  }

  /** A fence is made for the intent's own first create, and says what was wanted. */
  lemma FenceIff(intent: OwnershipIntent, g: Generation, desired: DesiredVm)
    ensures CreateFence(intent, g, desired).Ok? <==> intent == desired.intent && g == 1
    ensures CreateFence(intent, g, desired).Ok? ==>
              CreateFence(intent, g, desired).value
                == CreateDispatchFence(desired.intent, 1, desired.displayName, desired.specFingerprint)
    ensures CreateFence(intent, g, desired) == Err(FenceIntentMismatch) <==> intent != desired.intent
  {
  }

  /** Recovery binds only a listed VM that carries the fence's exact ownership, name and specification. */
  lemma RecoveredVmMatchesFence(fence: CreateDispatchFence, observed: seq<ObservedVm>)
    ensures var r := RecoverDispatchedCreate(fence, observed);
            r.Ok? && r.value.Recovered? ==>
              && r.value.binding.intent == fence.intent
              && r.value.binding.generation == fence.generation
              && exists vm :: vm in observed && vm.providerId == r.value.binding.providerId
                              && vm.ownership == Exact(ExactOwnership(fence.intent, fence.generation))
                              && vm.specFingerprint == fence.specFingerprint
  {
    var claims := OwnershipClaims(observed, fence.intent);
    var r := RecoverDispatchedCreate(fence, observed);
    if r.Ok? && r.value.Recovered? {
      assert claims[0] in observed;
    }
  }
}
