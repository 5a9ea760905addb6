/**
  What reconstruction guarantees about every ledger: the accepted lifecycle words,
  independence from list order, stability under growth, and separation of namespaces.
 */
module LedgerTheory {
  import opened Wrappers
  import opened Lifecycle
  import opened Ledger
  import opened Sorting

  // ---------------------------------------------------------------- the lifecycle language

  function Repeat(t: Transition, n: nat): (w: seq<Transition>)
    ensures |w| == n && forall i | 0 <= i < n :: w[i] == t
  {
    seq(n, _ => t)
  }

  /** A complete life with `n` replacements. */
  function LifeWord(n: nat): seq<Transition> {
    [PrepareCreate, DispatchCreate, Bind] + Repeat(Replace, n) + [PrepareDelete, DispatchDelete, Clear]
  }

  function Word(chain: seq<Record>): (w: seq<Transition>)
    ensures |w| == |chain|
  {
    seq(|chain|, i requires 0 <= i < |chain| => chain[i].payload.transition)
  }

  function BoundWord(g: Generation): seq<Transition> {
    [PrepareCreate, DispatchCreate, Bind] + Repeat(Replace, g - 1)
  }

  /** The only word that leads to a phase; the phase's generation counts the replacements. */
  function PhaseWord(phase: Phase): seq<Transition> {
    match phase
    case Empty => []
    case CreatePrepared(_) => [PrepareCreate]
    case CreateDispatched(_) => [PrepareCreate, DispatchCreate]
    case Bound(b) => BoundWord(b.generation)
    case DeletePrepared(b) => BoundWord(b.generation) + [PrepareDelete]
    case DeleteDispatched(b) => BoundWord(b.generation) + [PrepareDelete, DispatchDelete]
    case Terminal(g) => BoundWord(g) + [PrepareDelete, DispatchDelete, Clear]
  }

  /** Facts every replayed phase has: it belongs to the intent, and creation uses generation 1. */
  predicate PhaseOf(phase: Phase, intent: OwnershipIntent) {
    match phase
    case Empty => true
    case CreatePrepared(g) => g == INITIAL
    case CreateDispatched(g) => g == INITIAL
    case Bound(b) => b.intent == intent
    case DeletePrepared(b) => b.intent == intent
    case DeleteDispatched(b) => b.intent == intent
    case Terminal(g) => true
  }

  lemma BoundWordNext(g: Generation)
    requires g < U64_MAX
    ensures BoundWord(g + 1) == BoundWord(g) + [Replace]
  {
  }

  /** One accepted record extends the phase's word by exactly its own transition. */
  lemma ApplyExtendsWord(phase: Phase, payload: Payload, intent: OwnershipIntent)
    requires PhaseOf(phase, intent)
    requires ApplyRecord(phase, payload, intent).Ok?
    ensures PhaseOf(ApplyRecord(phase, payload, intent).value, intent)
    ensures PhaseWord(ApplyRecord(phase, payload, intent).value) == PhaseWord(phase) + [payload.transition]
  {
    match payload.transition
    case Replace => BoundWordNext(phase.binding.generation);
    case Bind => assert BoundWord(INITIAL) == [PrepareCreate, DispatchCreate, Bind];
    case _ =>
  }

  lemma {:induction false} ReplayDeterminesWord(chain: seq<Record>, intent: OwnershipIntent)
    requires Replay(chain, intent).Ok?
    ensures PhaseOf(Replay(chain, intent).value.phase, intent)
    ensures Word(chain) == PhaseWord(Replay(chain, intent).value.phase)
  {
    if chain != [] {
      var n := |chain| - 1;
      ReplayDeterminesWord(chain[..n], intent);
      ApplyExtendsWord(Replay(chain[..n], intent).value.phase, chain[n].payload, intent);
      assert Word(chain) == Word(chain[..n]) + [chain[n].payload.transition];
    }
  }

  /** The number of replacements a phase has been through. */
  function Replacements(phase: Phase): nat {
    match phase
    case Bound(b) => b.generation - 1
    case DeletePrepared(b) => b.generation - 1
    case DeleteDispatched(b) => b.generation - 1
    case Terminal(g) => g - 1
    case _ => 0
  }

  function CountReplace(w: seq<Transition>): nat {
    if w == [] then 0 else CountReplace(w[..|w| - 1]) + if w[|w| - 1] == Replace then 1 else 0
  }

  lemma {:induction false} CountReplaceBound(n: nat)
    ensures CountReplace([PrepareCreate, DispatchCreate, Bind] + Repeat(Replace, n)) == n
  {
    var w := [PrepareCreate, DispatchCreate, Bind] + Repeat(Replace, n);
    if n == 0 {
      assert w == [] + [PrepareCreate] + [DispatchCreate] + [Bind];
      CountReplaceSnoc([], PrepareCreate);
      CountReplaceSnoc([] + [PrepareCreate], DispatchCreate);
      CountReplaceSnoc([] + [PrepareCreate] + [DispatchCreate], Bind);
    } else {
      assert w[..|w| - 1] == [PrepareCreate, DispatchCreate, Bind] + Repeat(Replace, n - 1);
      CountReplaceBound(n - 1);
    }
  }

  lemma {:induction false} CountReplaceSnoc(w: seq<Transition>, t: Transition)
    ensures CountReplace(w + [t]) == CountReplace(w) + if t == Replace then 1 else 0
  {
    assert (w + [t])[..|w|] == w;
  }

  /** Deleting adds no replacement. */
  lemma {:induction false} CountReplaceDeleting(w: seq<Transition>)
    ensures CountReplace(w + [PrepareDelete]) == CountReplace(w)
    ensures CountReplace(w + [PrepareDelete, DispatchDelete]) == CountReplace(w)
    ensures CountReplace(w + [PrepareDelete, DispatchDelete, Clear]) == CountReplace(w)
  {
    var p := w + [PrepareDelete];
    var d := w + [PrepareDelete, DispatchDelete];
    CountReplaceSnoc(w, PrepareDelete);
    CountReplaceSnoc(p, DispatchDelete);
    assert p + [DispatchDelete] == d;
    CountReplaceSnoc(d, Clear);
    assert d + [Clear] == w + [PrepareDelete, DispatchDelete, Clear];
  }

  lemma {:induction false} CountReplaceBoundWord(g: Generation)
    ensures CountReplace(BoundWord(g)) == g - 1
    ensures CountReplace(BoundWord(g) + [PrepareDelete]) == g - 1
    ensures CountReplace(BoundWord(g) + [PrepareDelete, DispatchDelete]) == g - 1
    ensures CountReplace(BoundWord(g) + [PrepareDelete, DispatchDelete, Clear]) == g - 1
  {
    CountReplaceBound(g - 1);
    CountReplaceDeleting(BoundWord(g));
  }

  lemma {:induction false} CountReplacePhaseWord(phase: Phase)
    ensures CountReplace(PhaseWord(phase)) == Replacements(phase)
  {
    CountReplaceSnoc([], PrepareCreate);
    CountReplaceSnoc([PrepareCreate], DispatchCreate);
    assert [] + [PrepareCreate] == [PrepareCreate];
    assert [PrepareCreate] + [DispatchCreate] == [PrepareCreate, DispatchCreate];
    match phase
    case Bound(b) => CountReplaceBoundWord(b.generation);
    case DeletePrepared(b) => CountReplaceBoundWord(b.generation);
    case DeleteDispatched(b) => CountReplaceBoundWord(b.generation);
    case Terminal(g) => CountReplaceBoundWord(g);
    case _ =>
  }

  lemma PhaseWordIsLifePrefix(phase: Phase)
    ensures PhaseWord(phase) <= LifeWord(Replacements(phase))
  {
    if Rank(phase) >= 3 {
      var g: Generation := Replacements(phase) + 1;
      assert LifeWord(g - 1) == BoundWord(g) + [PrepareDelete, DispatchDelete, Clear];
    }
  }

  /**
    Soundness of the language: an accepted chain spells a prefix of
    PrepareCreate DispatchCreate Bind Replace* PrepareDelete DispatchDelete Clear,
    and the generation it reaches is INITIAL plus the number of Replace records.
   */
  lemma AcceptedWordsAreLifePrefixes(chain: seq<Record>, intent: OwnershipIntent)
    requires Replay(chain, intent).Ok?
    ensures var k := CountReplace(Word(chain));
            && Word(chain) <= LifeWord(k)
            && k == Replacements(Replay(chain, intent).value.phase)
            && INITIAL + k <= U64_MAX
  {
    ReplayDeterminesWord(chain, intent);
    var phase := Replay(chain, intent).value.phase;
    CountReplacePhaseWord(phase);
    PhaseWordIsLifePrefix(phase);
  }

  // The converse: a chain for every such word, alternating between two machines.

  const UUID_A := "11111111-1111-4111-8111-111111111111"
  const UUID_B := "22222222-2222-4222-8222-222222222222"

  /** The machine that generation `g` of the witness life is bound to. */
  function WitnessBinding(g: Generation): BindingPayload {
    BindingPayload(if g % 2 == 1 then UUID_A else UUID_B, g)
  }

  function WitnessPayload(sha: string, id: string, t: Transition, position: U64, g: Generation): Payload {
    var expected :=
      if t == Replace && g > 1 then Some(WitnessBinding(g - 1))
      else if t in {PrepareDelete, DispatchDelete, Clear} then Some(WitnessBinding(g))
      else None;
    var replacement := if t in {Bind, Replace} then Some(WitnessBinding(g)) else None;
    Payload(LEDGER_FORMAT_VERSION, OWNERSHIP_PROJECT, OWNERSHIP_MANAGER, sha, Acceptance, id,
            if position == 0 then None else Some(position - 1), t, g, expected, replacement)
  }

  /** The `i`-th record of the witness life with `n` replacements. */
  function WitnessRecord(sha: string, id: string, n: nat, i: nat): Record
    requires n < U64_MAX && i < |LifeWord(n)| && i <= U64_MAX
  {
    var g: Generation := if i < 3 then 1 else if i < 3 + n then i - 1 else n + 1;
    Record(i, sha, sha, DEPLOYMENT_TASK, DEPLOYMENT_ENVIRONMENT, WitnessPayload(sha, id, LifeWord(n)[i], i, g))
  }

  function WitnessChain(sha: string, id: string, n: nat, len: nat): seq<Record>
    requires n < U64_MAX && len <= |LifeWord(n)| && len <= U64_MAX
  {
    seq(len, i requires 0 <= i < len => WitnessRecord(sha, id, n, i))
  }

  function WitnessVm(g: Generation, intent: OwnershipIntent): VmBinding {
    VmBinding(intent, WitnessBinding(g).providerId, g)
  }

  function WitnessPhase(n: nat, len: nat, intent: OwnershipIntent): Phase
    requires n < U64_MAX && len <= |LifeWord(n)|
  {
    if len == 0 then Empty
    else if len == 1 then CreatePrepared(1)
    else if len == 2 then CreateDispatched(1)
    else if len <= 3 + n then Bound(WitnessVm(len - 2, intent))
    else if len == 4 + n then DeletePrepared(WitnessVm(n + 1, intent))
    else if len == 5 + n then DeleteDispatched(WitnessVm(n + 1, intent))
    else Terminal(n + 1)
  }

  lemma WitnessUuids()
    ensures CanonicalUuid(UUID_A) && CanonicalUuid(UUID_B) && UUID_A != UUID_B
  {
    assert UUID_A[0] != UUID_B[0];
  }

  lemma LifeWordAt(n: nat, i: nat)
    requires i < |LifeWord(n)|
    ensures LifeWord(n)[i] ==
              if i == 0 then PrepareCreate
              else if i == 1 then DispatchCreate
              else if i == 2 then Bind
              else if i < 3 + n then Replace
              else if i == 3 + n then PrepareDelete
              else if i == 4 + n then DispatchDelete
              else Clear
  {
  }

  lemma WitnessAlternates(g: Generation)
    requires g > 1
    ensures WitnessBinding(g).providerId != WitnessBinding(g - 1).providerId
  {
    WitnessUuids();
  }

  function WitnessBindingOf(p: Option<BindingPayload>, intent: OwnershipIntent): Option<VmBinding> {
    if p.None? || p.value.generation == 0 then None else Some(WitnessVm(p.value.generation, intent))
  }

  ghost predicate WitnessMoves(sha: string, n: nat, len: nat, intent: OwnershipIntent)
    requires n < U64_MAX && len < |LifeWord(n)| && len < U64_MAX
  {
    var p := WitnessRecord(sha, intent.id, n, len).payload;
    ApplyTransition(WitnessPhase(n, len, intent), p.transition, p.generation,
                    WitnessBindingOf(p.expected, intent), WitnessBindingOf(p.replacement, intent))
      == Ok(WitnessPhase(n, len + 1, intent))
  }

  lemma WitnessCreates(sha: string, n: nat, len: nat, intent: OwnershipIntent)
    requires n < U64_MAX && len < 3
    ensures WitnessMoves(sha, n, len, intent)
  {
    LifeWordAt(n, len);
  }

  lemma ReplaceMoves(b: VmBinding, b': VmBinding)
    requires b.generation < U64_MAX && b'.generation == b.generation + 1
    requires b'.intent == b.intent && b'.providerId != b.providerId
    ensures ApplyTransition(Bound(b), Replace, b'.generation, Some(b), Some(b')) == Ok(Bound(b'))
  {
  }

  lemma WitnessReplaces(sha: string, n: nat, len: nat, intent: OwnershipIntent)
    requires n < U64_MAX && 3 <= len < 3 + n && len < U64_MAX
    ensures WitnessMoves(sha, n, len, intent)
  {
    LifeWordAt(n, len);
    var g: Generation := len - 1;
    WitnessAlternates(g);
    var p := WitnessRecord(sha, intent.id, n, len).payload;
    assert p.transition == Replace && p.generation == g;
    assert WitnessBindingOf(p.expected, intent) == Some(WitnessVm(g - 1, intent));
    assert WitnessBindingOf(p.replacement, intent) == Some(WitnessVm(g, intent));
    ReplaceMoves(WitnessVm(g - 1, intent), WitnessVm(g, intent));
  }

  lemma WitnessDeletes(sha: string, n: nat, len: nat, intent: OwnershipIntent)
    requires n < U64_MAX && 3 + n <= len < |LifeWord(n)| && len < U64_MAX
    ensures WitnessMoves(sha, n, len, intent)
  {
    LifeWordAt(n, len);
  }

  lemma WitnessPayloads(sha: string, t: Transition, position: U64, g: Generation, intent: OwnershipIntent)
    ensures var p := WitnessPayload(sha, intent.id, t, position, g);
            && ToBinding(p.expected, intent)
                 == Ok(WitnessBindingOf(p.expected, intent))
            && ToBinding(p.replacement, intent)
                 == Ok(WitnessBindingOf(p.replacement, intent))
  {
    WitnessUuids();
  }

  lemma WitnessStep(sha: string, n: nat, len: nat, intent: OwnershipIntent)
    requires n < U64_MAX && len < |LifeWord(n)| && len < U64_MAX
    ensures ApplyRecord(WitnessPhase(n, len, intent), WitnessRecord(sha, intent.id, n, len).payload, intent)
         == Ok(WitnessPhase(n, len + 1, intent))
  {
    var p := WitnessRecord(sha, intent.id, n, len).payload;
    if len < 3 {
      WitnessCreates(sha, n, len, intent);
    } else if len < 3 + n {
      WitnessReplaces(sha, n, len, intent);
    } else {
      WitnessDeletes(sha, n, len, intent);
    }
    WitnessPayloads(sha, p.transition, len, p.generation, intent);
  }

  lemma WitnessFront(sha: string, id: string, n: nat, len: nat)
    requires n < U64_MAX && 0 < len <= |LifeWord(n)| && len <= U64_MAX
    ensures WitnessChain(sha, id, n, len)[..len - 1] == WitnessChain(sha, id, n, len - 1)
    ensures len - 1 !in Ids(WitnessChain(sha, id, n, len - 1))
  {
  }

  /** One more record at the end of a chain that replays. */
  lemma ReplayLast(chain: seq<Record>, intent: OwnershipIntent, state: LedgerState, phase: Phase)
    requires chain != [] && Replay(chain[..|chain| - 1], intent) == Ok(state)
    requires chain[|chain| - 1].id !in Ids(chain[..|chain| - 1])
    requires chain[|chain| - 1].payload.predecessor == state.head
    requires ApplyRecord(state.phase, chain[|chain| - 1].payload, intent) == Ok(phase)
    ensures Replay(chain, intent) == Ok(LedgerState(Some(chain[|chain| - 1].id), phase))
  {
  }

  function WitnessState(n: nat, len: nat, intent: OwnershipIntent): LedgerState
    requires n < U64_MAX && len <= |LifeWord(n)| && len <= U64_MAX
  {
    LedgerState(if len == 0 then None else Some(len - 1), WitnessPhase(n, len, intent))
  }

  lemma {:induction false} WitnessAccepted(sha: string, n: nat, len: nat, intent: OwnershipIntent)
    requires n < U64_MAX && len <= |LifeWord(n)| && len <= U64_MAX
    ensures Replay(WitnessChain(sha, intent.id, n, len), intent) == Ok(WitnessState(n, len, intent))
  {
    if len > 0 {
      WitnessAccepted(sha, n, len - 1, intent);
      WitnessStep(sha, n, len - 1, intent);
      WitnessFront(sha, intent.id, n, len);
      ReplayLast(WitnessChain(sha, intent.id, n, len), intent, WitnessState(n, len - 1, intent),
        WitnessPhase(n, len, intent));
    }
  }

  lemma WitnessWord(sha: string, id: string, n: nat, len: nat)
    requires n < U64_MAX && len <= |LifeWord(n)| && len <= U64_MAX
    ensures Word(WitnessChain(sha, id, n, len)) == LifeWord(n)[..len]
  {
  }

  lemma WitnessEnvelope(sha: string, namespace: Namespace, n: nat, i: nat)
    requires n < U64_MAX && i < |LifeWord(n)| && i <= U64_MAX
    ensures CheckEnvelope(WitnessRecord(sha, IntentId(namespace, sha), n, i), sha).Ok?
  {
    WitnessUuids();
  }

  /** Envelope-valid records of one intent in id order are their own chain. */
  lemma {:induction false} OwnSortedChain(records: seq<Record>, sha: string, intent: OwnershipIntent)
    requires forall r | r in records :: CheckEnvelope(r, sha).Ok? && r.payload.intentId == intent.id
    requires Sorted(records, IdLe)
    ensures Select(records, sha, intent.id).Ok? && Chain(records, sha, intent) == records
  {
    SortFixes(records, IdLe);
    SelectsAll(records, sha, intent.id);
  }

  lemma {:induction false} SelectsAll(records: seq<Record>, sha: string, id: string)
    requires forall r | r in records :: CheckEnvelope(r, sha).Ok? && r.payload.intentId == id
    ensures Select(records, sha, id) == Ok(records)
  {
    if records != [] {
      var n := |records| - 1;
      SelectsAll(records[..n], sha, id);
      assert records == records[..n] + [records[n]];
    }
  }

  /**
    Completeness of the language: for every candidate and namespace, every prefix of a life
    is spelled by the chain of some ledger that reconstructs, as long as its replacements and
    its length stay within 64-bit counters.
   */
  lemma LifePrefixesAreAccepted(sha: string, namespace: Namespace, n: nat, w: seq<Transition>)
      returns (records: seq<Record>)
    requires ValidSha(sha) && n < U64_MAX && w <= LifeWord(n) && |w| <= U64_MAX
    ensures Reconstruct(records, sha, IntentOf(namespace, sha)).Ok?
    ensures Select(records, sha, IntentId(namespace, sha)).Ok?
    ensures Word(Chain(records, sha, IntentOf(namespace, sha))) == w
  {
    var intent := IntentOf(namespace, sha);
    records := WitnessChain(sha, intent.id, n, |w|);
    WitnessAccepted(sha, n, |w|, intent);
    WitnessWord(sha, intent.id, n, |w|);
    forall i | 0 <= i < |records|
      ensures CheckEnvelope(records[i], sha).Ok?
    {
      WitnessEnvelope(sha, namespace, n, i);
    }
    OwnSortedChain(records, sha, intent);
  }

  // ---------------------------------------------------------------- progress

  function Rank(phase: Phase): nat {
    match phase
    case Empty => 0
    case CreatePrepared(_) => 1
    case CreateDispatched(_) => 2
    case Bound(_) => 3
    case DeletePrepared(_) => 4
    case DeleteDispatched(_) => 5
    case Terminal(_) => 6
  }

  function PhaseGeneration(phase: Phase): nat {
    match phase
    case Empty => 0
    case CreatePrepared(g) => g
    case CreateDispatched(g) => g
    case Bound(b) => b.generation
    case DeletePrepared(b) => b.generation
    case DeleteDispatched(b) => b.generation
    case Terminal(g) => g
  }

  /** Every accepted record raises (rank, generation), rank by one unless it is a Replace; Terminal accepts nothing. */
  lemma AcceptedRecordsAdvance(phase: Phase, payload: Payload, intent: OwnershipIntent)
    ensures phase.Terminal? ==> ApplyRecord(phase, payload, intent).Err?
    ensures ApplyRecord(phase, payload, intent).Ok? ==>
              var after := ApplyRecord(phase, payload, intent).value;
              if payload.transition == Replace
              then Rank(after) == Rank(phase) && PhaseGeneration(after) == PhaseGeneration(phase) + 1
              else Rank(after) == Rank(phase) + 1 && PhaseGeneration(after) >= PhaseGeneration(phase)
  {
  }

  function PayloadOf(b: VmBinding): BindingPayload {
    BindingPayload(b.providerId, b.generation)
  }

  /** The binding a phase holds on to. */
  function HeldBinding(phase: Phase): Option<VmBinding> {
    match phase
    case Bound(b) => Some(b)
    case DeletePrepared(b) => Some(b)
    case DeleteDispatched(b) => Some(b)
    case _ => None
  }

  /**
    What an accepted record says about machines: exactly the records after binding name what they
    expect, and it is what the ledger holds; exactly Bind and Replace name a machine to hold from
    then on; a replacement is always another machine; and deleting keeps to the one held.
   */
  lemma AcceptedRecordsNameMachines(phase: Phase, payload: Payload, intent: OwnershipIntent)
    requires ApplyRecord(phase, payload, intent).Ok?
    ensures var after := ApplyRecord(phase, payload, intent).value;
            && (payload.expected.Some? <==> payload.transition in {Replace, PrepareDelete, DispatchDelete, Clear})
            && (payload.replacement.Some? <==> payload.transition in {Bind, Replace})
            && (payload.expected.Some? ==>
                  HeldBinding(phase).Some? && payload.expected.value == PayloadOf(HeldBinding(phase).value))
            && (payload.replacement.Some? ==>
                  after == Bound(VmBinding(intent, payload.replacement.value.providerId, payload.generation)))
            && (payload.transition == Replace ==>
                  payload.replacement.value.providerId != payload.expected.value.providerId)
            && (payload.transition in {PrepareDelete, DispatchDelete} ==> HeldBinding(after) == HeldBinding(phase))
            && PhaseGeneration(after) == payload.generation
  {
  }

  // ---------------------------------------------------------------- texts

  /** A candidate is forty lower-case hexadecimal digits. */
  lemma ShaIff(sha: string)
    ensures ValidSha(sha) <==> |sha| == 40 && forall i | 0 <= i < |sha| :: sha[i] in "0123456789abcdef"
  {
    forall i | 0 <= i < |sha| ensures LowerHex(sha[i]) <==> sha[i] in "0123456789abcdef" {
      HexIff(sha[i]);
    }
  }

  lemma HexIff(c: char)
    ensures LowerHex(c) <==> c in "0123456789abcdef"
  {
    var digits := "0123456789abcdef";
    assert forall i | 0 <= i < 10 :: digits[i] == '0' + i as char;
    assert forall i | 10 <= i < 16 :: digits[i] == 'a' + (i - 10) as char;
    if '0' <= c <= '9' {
      assert digits[c as int - '0' as int] == c;
    } else if 'a' <= c <= 'f' {
      assert digits[10 + c as int - 'a' as int] == c;
    }
  }

  /** Thirty-two hexadecimal digits in the groups of a UUID. */
  function RenderUuid(hex: string): string
    requires |hex| == 32
  {
    hex[..8] + "-" + hex[8..12] + "-" + hex[12..16] + "-" + hex[16..20] + "-" + hex[20..]
  }

  function UuidDigits(s: string): string
    requires |s| == 36
  {
    s[..8] + s[9..13] + s[14..18] + s[19..23] + s[24..]
  }

  /** A canonical UUID is the rendering of thirty-two lower-case hexadecimal digits. */
  lemma UuidIff(s: string)
    ensures CanonicalUuid(s) <==>
      exists hex :: |hex| == 32 && (forall i | 0 <= i < 32 :: LowerHex(hex[i])) && s == RenderUuid(hex)
  {
    if CanonicalUuid(s) {
      var hex := UuidDigits(s);
      DigitPlaces(s);
      RenderedPlaces(hex);
      forall i | 0 <= i < 36 ensures s[i] == RenderUuid(hex)[i] {
      }
      assert s == RenderUuid(hex);
    }
    if hex :| |hex| == 32 && (forall i | 0 <= i < 32 :: LowerHex(hex[i])) && s == RenderUuid(hex) {
      RenderedPlaces(hex);
    }
  }

  lemma DigitPlaces(s: string)
    requires |s| == 36
    ensures var hex := UuidDigits(s);
            && |hex| == 32
            && (forall i | 0 <= i < 8 :: hex[i] == s[i])
            && (forall i | 8 <= i < 12 :: hex[i] == s[i + 1])
            && (forall i | 12 <= i < 16 :: hex[i] == s[i + 2])
            && (forall i | 16 <= i < 20 :: hex[i] == s[i + 3])
            && (forall i | 20 <= i < 32 :: hex[i] == s[i + 4])
  {
  }

  lemma RenderedPlaces(hex: string)
    requires |hex| == 32
    ensures var s := RenderUuid(hex);
            && |s| == 36 && s[8] == s[13] == s[18] == s[23] == '-'
            && (forall i | 0 <= i < 8 :: s[i] == hex[i])
            && (forall i | 9 <= i < 13 :: s[i] == hex[i - 1])
            && (forall i | 14 <= i < 18 :: s[i] == hex[i - 2])
            && (forall i | 19 <= i < 23 :: s[i] == hex[i - 3])
            && (forall i | 24 <= i < 36 :: s[i] == hex[i - 4])
  {
  }

  /** The two intents of a candidate. */
  lemma IntentTexts(sha: string)
    ensures IntentOf(Item19, sha) == OwnershipIntent(Acceptance, "candidate:" + sha)
    ensures IntentOf(Item20, sha) == OwnershipIntent(Acceptance, "item20:candidate:" + sha)
    ensures forall id :: AllowedIntentId(sha, id) <==> id in {"candidate:" + sha, "item20:candidate:" + sha}
  {
  }

  // ---------------------------------------------------------------- selection and sorting

  predicate AllValid(records: seq<Record>, sha: string) {
    forall r | r in records :: CheckEnvelope(r, sha).Ok?
  }

  lemma {:induction false} SelectFilters(records: seq<Record>, sha: string, id: string)
    ensures Select(records, sha, id).Ok? <==> AllValid(records, sha)
    ensures Select(records, sha, id).Ok? ==>
              var s := Select(records, sha, id).value;
              forall r :: multiset(s)[r] == if r.payload.intentId == id then multiset(records)[r] else 0
  {
    if records != [] {
      var n := |records| - 1;
      SelectFilters(records[..n], sha, id);
      assert records == records[..n] + [records[n]];
      if AllValid(records, sha) {
        assert forall r | r in records[..n] :: r in records;
      } else if AllValid(records[..n], sha) {
        assert CheckEnvelope(records[n], sha).Err?;
      }
    }
  }

  lemma SelectMembers(records: seq<Record>, sha: string, id: string)
    requires Select(records, sha, id).Ok?
    ensures forall r :: r in Select(records, sha, id).value <==> r in records && r.payload.intentId == id
  {
    SelectFilters(records, sha, id);
    var s := Select(records, sha, id).value;
    forall r ensures r in s <==> r in records && r.payload.intentId == id {
      assert r in s <==> multiset(s)[r] > 0;
      assert r in records <==> multiset(records)[r] > 0;
    }
  }

  predicate DistinctIds(s: seq<Record>) {
    Separated(s, SameId)
  }

  /** The sorted records of one intent, as replayed by a read. */
  function Chain(records: seq<Record>, sha: string, intent: OwnershipIntent): seq<Record>
    requires Select(records, sha, intent.id).Ok?
  {
    SortById(Select(records, sha, intent.id).value)
  }

  // ---------------------------------------------------------------- linked chains

  function PreviousId(chain: seq<Record>, i: nat): Option<U64>
    requires i < |chain|
  {
    if i == 0 then None else Some(chain[i - 1].id)
  }

  /** What a successful replay has checked about ids and predecessors. */
  predicate Linked(chain: seq<Record>) {
    && DistinctIds(chain)
    && forall i {:trigger PreviousId(chain, i)} | 0 <= i < |chain| ::
         chain[i].payload.predecessor == PreviousId(chain, i)
  }

  lemma ReplayUnfold(chain: seq<Record>, intent: OwnershipIntent)
    requires chain != [] && Replay(chain, intent).Ok?
    ensures var n := |chain| - 1;
            && Replay(chain[..n], intent).Ok?
            && chain[n].id !in Ids(chain[..n])
            && chain[n].payload.predecessor == Replay(chain[..n], intent).value.head
            && Replay(chain, intent).value.head == Some(chain[n].id)
            && ApplyRecord(Replay(chain[..n], intent).value.phase, chain[n].payload, intent)
                 == Ok(Replay(chain, intent).value.phase)
  {
  }

  lemma LinkedSnoc(front: seq<Record>, r: Record)
    requires Linked(front) && r.id !in Ids(front)
    requires r.payload.predecessor == if front == [] then None else Some(front[|front| - 1].id)
    ensures Linked(front + [r])
  {
    forall i | 0 <= i < |front| ensures front[i].id != r.id {
      assert front[i].id in Ids(front);
    }
    var chain := front + [r];
    forall i | 0 <= i < |chain| ensures chain[i].payload.predecessor == PreviousId(chain, i) {
      if i < |front| {
        assert front[i].payload.predecessor == PreviousId(front, i);
      }
    }
  }

  lemma {:induction false} ReplayedChainsAreLinked(chain: seq<Record>, intent: OwnershipIntent)
    requires Replay(chain, intent).Ok?
    ensures Linked(chain)
    ensures Replay(chain, intent).value.head == if chain == [] then None else Some(chain[|chain| - 1].id)
  {
    if chain != [] {
      var n := |chain| - 1;
      ReplayUnfold(chain, intent);
      ReplayedChainsAreLinked(chain[..n], intent);
      LinkedSnoc(chain[..n], chain[n]);
      assert chain == chain[..n] + [chain[n]];
    }
  }

  lemma SameIdSamePosition(s: seq<Record>, i: nat, j: nat)
    requires DistinctIds(s) && i < |s| && j < |s| && s[i].id == s[j].id
    ensures i == j
  {
    assert SameId(s[i], s[j]) && SameId(s[j], s[i]);
  }

  lemma SameIdSameRecord(s: seq<Record>, x: Record, y: Record)
    requires DistinctIds(s) && x in s && y in s && x.id == y.id
    ensures x == y
  {
    var i :| 0 <= i < |s| && s[i] == x;
    var j :| 0 <= j < |s| && s[j] == y;
    SameIdSamePosition(s, i, j);
  }

  lemma NextInChain(a: seq<Record>, b: seq<Record>, k: nat)
    requires Linked(a) && Linked(b) && k < |a| && k <= |b|
    requires k > 0 ==> a[k - 1] == b[k - 1]
    requires a[k] in b
    ensures k < |b| && a[k] == b[k]
  {
    var j :| 0 <= j < |b| && b[j] == a[k];
    assert PreviousId(b, j) == PreviousId(a, k);
    if k > 0 {
      SameIdSamePosition(b, j - 1, k - 1);
    }
  }

  /** Two linked chains, one made of records of the other: they agree on the smaller's positions. */
  lemma {:induction false} LinkedPrefix(a: seq<Record>, b: seq<Record>, n: nat)
    requires Linked(a) && Linked(b) && n <= |a|
    requires forall i | 0 <= i < |a| :: a[i] in b
    ensures n <= |b| && forall i | 0 <= i < n :: a[i] == b[i]
  {
    if n > 0 {
      LinkedPrefix(a, b, n - 1);
      NextInChain(a, b, n - 1);
    }
  }

  lemma ReconstructedChain(records: seq<Record>, sha: string, intent: OwnershipIntent)
    requires Reconstruct(records, sha, intent).Ok?
    ensures Select(records, sha, intent.id).Ok?
    ensures var chain := Chain(records, sha, intent);
            && Replay(chain, intent) == Reconstruct(records, sha, intent)
            && Linked(chain)
            && (forall r :: r in chain <==> r in records && r.payload.intentId == intent.id)
  {
    var selected := Select(records, sha, intent.id).value;
    var chain := Chain(records, sha, intent);
    SelectMembers(records, sha, intent.id);
    SortMembers(selected, IdLe);
    ReplayedChainsAreLinked(chain, intent);
  }

  /**
    Stability under growth, with no assumption on how ids are assigned: if a list
    and a list that contains all its records both reconstruct, the smaller chain
    is a prefix of the larger one.
   */
  lemma GrowthExtendsChain(smaller: seq<Record>, larger: seq<Record>, sha: string, intent: OwnershipIntent)
    requires forall r | r in smaller :: r in larger
    requires Reconstruct(smaller, sha, intent).Ok? && Reconstruct(larger, sha, intent).Ok?
    ensures Select(smaller, sha, intent.id).Ok? && Select(larger, sha, intent.id).Ok?
    ensures Chain(smaller, sha, intent) <= Chain(larger, sha, intent)
  {
    ReconstructedChain(smaller, sha, intent);
    ReconstructedChain(larger, sha, intent);
    var a, b := Chain(smaller, sha, intent), Chain(larger, sha, intent);
    forall i | 0 <= i < |a| ensures a[i] in b {
      assert a[i] in a;
    }
    LinkedPrefix(a, b, |a|);
  }

  lemma SelectPermutes(a: seq<Record>, b: seq<Record>, sha: string, id: string)
    requires multiset(a) == multiset(b) && Select(a, sha, id).Ok?
    ensures Select(b, sha, id).Ok? && multiset(Select(a, sha, id).value) == multiset(Select(b, sha, id).value)
  {
    SelectFilters(a, sha, id);
    SelectFilters(b, sha, id);
    forall r | r in b ensures CheckEnvelope(r, sha).Ok? {
      assert r in multiset(b);
      assert r in a;
    }
  }

  lemma SortedChainsCoincide(sa: seq<Record>, sb: seq<Record>)
    requires multiset(sa) == multiset(sb) && DistinctIds(SortById(sa))
    ensures SortById(sa) == SortById(sb)
  {
    assert TotalPreorder(IdLe);
    SortSorts(sa, IdLe);
    SortSorts(sb, IdLe);
    SortMultiset(sa, IdLe);
    SortMultiset(sb, IdLe);
    var a := SortById(sa);
    forall x, y | x in a && y in a && IdLe(x, y) && IdLe(y, x) ensures x == y {
      SameIdSameRecord(a, x, y);
    }
    SortedUnique(a, SortById(sb), IdLe);
  }

  /** Order independence: a permutation of a reconstructible list reconstructs to the same state. */
  lemma PermutationInvariant(a: seq<Record>, b: seq<Record>, sha: string, intent: OwnershipIntent)
    requires multiset(a) == multiset(b)
    requires Reconstruct(a, sha, intent).Ok?
    ensures Reconstruct(b, sha, intent) == Reconstruct(a, sha, intent)
  {
    ReconstructedChain(a, sha, intent);
    SelectPermutes(a, b, sha, intent.id);
    SortedChainsCoincide(Select(a, sha, intent.id).value, Select(b, sha, intent.id).value);
  }

  // ---------------------------------------------------------------- duplicate ids

  lemma {:induction false} SelectPositionsDistinct(records: seq<Record>, sha: string, id: string, i: nat, j: nat)
    requires Select(records, sha, id).Ok? && DistinctIds(Select(records, sha, id).value)
    requires i < j < |records|
    requires records[i].payload.intentId == id && records[j].payload.intentId == id
    ensures records[i].id != records[j].id
  {
    var n := |records| - 1;
    var front := Select(records[..n], sha, id).value;
    var all := Select(records, sha, id).value;
    assert forall k | 0 <= k < |front| :: all[k] == front[k];
    if j < n {
      SelectPositionsDistinct(records[..n], sha, id, i, j);
    } else {
      SelectMembers(records[..n], sha, id);
      assert records[..n][i] in front;
      var k :| 0 <= k < |front| && front[k] == records[i];
      assert all[|front|] == records[n];
      assert !SameId(all[k], all[|front|]);
    }
  }

  /** In a reconstructible list no two positions of the intent share an id, even if the records are equal. */
  lemma PositionsHaveDistinctIds(records: seq<Record>, sha: string, intent: OwnershipIntent, i: nat, j: nat)
    requires Reconstruct(records, sha, intent).Ok?
    requires i < j < |records|
    requires records[i].payload.intentId == intent.id && records[j].payload.intentId == intent.id
    ensures records[i].id != records[j].id
  {
    ReconstructedChain(records, sha, intent);
    SortSeparated(Select(records, sha, intent.id).value, IdLe, SameId);
    SelectPositionsDistinct(records, sha, intent.id, i, j);
  }

  // ---------------------------------------------------------------- why a ledger is refused

  lemma EnvelopeErrors(r: Record, sha: string)
    requires CheckEnvelope(r, sha).Err?
    ensures CheckEnvelope(r, sha).error == InvalidProviderUuid ==>
              || (r.payload.expected.Some? && !CanonicalUuid(r.payload.expected.value.providerId))
              || (r.payload.replacement.Some? && !CanonicalUuid(r.payload.replacement.value.providerId))
    ensures CheckEnvelope(r, sha).error in {InvalidLedgerRecord, InvalidProviderUuid}
    ensures (r.payload.expected.Some? ==> CanonicalUuid(r.payload.expected.value.providerId))
            && (r.payload.replacement.Some? ==> CanonicalUuid(r.payload.replacement.value.providerId)) ==>
              CheckEnvelope(r, sha).error == InvalidLedgerRecord
  {
  }

  lemma {:induction false} SelectErrors(records: seq<Record>, sha: string, id: string)
    requires Select(records, sha, id).Err?
    ensures exists r :: r in records && CheckEnvelope(r, sha) == Err(Select(records, sha, id).error)
  {
    var n := |records| - 1;
    if Select(records[..n], sha, id).Err? {
      SelectErrors(records[..n], sha, id);
      var r :| r in records[..n] && CheckEnvelope(r, sha) == Err(Select(records[..n], sha, id).error);
      assert r in records;
    } else {
      assert records[n] in records;
    }
  }

  predicate SoundPayload(p: Payload) {
    p.generation > 0 && CheckBindingPayload(p.expected).Ok? && CheckBindingPayload(p.replacement).Ok?
  }

  /** A linked chain is never called forked, and a chain that is not linked never passes. */
  lemma {:induction false} ReplayErrors(chain: seq<Record>, intent: OwnershipIntent)
    requires forall i | 0 <= i < |chain| :: SoundPayload(chain[i].payload)
    requires Replay(chain, intent).Err?
    ensures Replay(chain, intent).error in {ForkedLedger, InvalidTransition}
    ensures Linked(chain) ==> Replay(chain, intent).error == InvalidTransition
  {
    var n := |chain| - 1;
    if Replay(chain[..n], intent).Err? {
      ReplayErrors(chain[..n], intent);
      if Linked(chain) {
        LinkedFront(chain);
      }
    } else {
      ReplayedChainsAreLinked(chain[..n], intent);
      assert SoundPayload(chain[n].payload);
      if Linked(chain) {
        LinkedFront(chain);
      }
    }
  }

  lemma LinkedFront(chain: seq<Record>)
    requires Linked(chain) && chain != []
    ensures var n := |chain| - 1;
            && Linked(chain[..n]) && chain[n].id !in Ids(chain[..n])
            && chain[n].payload.predecessor == PreviousId(chain, n)
  {
    var n := |chain| - 1;
    var front := chain[..n];
    forall i | 0 <= i < |front| ensures front[i].payload.predecessor == PreviousId(front, i) {
      assert PreviousId(front, i) == PreviousId(chain, i);
    }
    forall i | 0 <= i < n ensures chain[i].id != chain[n].id {
      assert !SameId(chain[i], chain[n]);
    }
  }

  /**
    Why a reconstruction fails: the candidate is not a commit id; the intent is not one of the
    candidate's two; some record is not a ledger record; or the intent's own records do not form
    one chain, or not of one life.
   */
  lemma RefusalsByCause(records: seq<Record>, sha: string, intent: OwnershipIntent)
    requires Reconstruct(records, sha, intent).Err?
    ensures var e := Reconstruct(records, sha, intent).error;
            if !ValidSha(sha) then e == InvalidCandidateSha
            else if intent != IntentOf(Item19, sha) && intent != IntentOf(Item20, sha) then e == InvalidOwnershipIntent
            else if !AllValid(records, sha) then exists r :: r in records && CheckEnvelope(r, sha) == Err(e)
            else
              && Select(records, sha, intent.id).Ok? && e in {ForkedLedger, InvalidTransition}
              && (Linked(Chain(records, sha, intent)) ==> e == InvalidTransition)
  {
    SelectFilters(records, sha, intent.id);
    if ValidSha(sha) && (intent == IntentOf(Item19, sha) || intent == IntentOf(Item20, sha)) {
      if !AllValid(records, sha) {
        SelectErrors(records, sha, intent.id);
      } else {
        var chain := Chain(records, sha, intent);
        SelectMembers(records, sha, intent.id);
        SortMembers(Select(records, sha, intent.id).value, IdLe);
        forall i | 0 <= i < |chain| ensures SoundPayload(chain[i].payload) {
          assert chain[i] in chain;
          assert CheckEnvelope(chain[i], sha).Ok?;
        }
        ReplayErrors(chain, intent);
      }
    }
  }

  // ---------------------------------------------------------------- appends with growing ids

  /** An appended record with the largest id goes to the end of the chain; one of another intent leaves it alone. */
  lemma AppendToChain(records: seq<Record>, r: Record, sha: string, intent: OwnershipIntent)
    requires Select(records, sha, intent.id).Ok? && CheckEnvelope(r, sha).Ok?
    requires r.payload.intentId == intent.id ==>
               forall x | x in records && x.payload.intentId == intent.id :: x.id < r.id
    ensures Select(records + [r], sha, intent.id).Ok?
    ensures Chain(records + [r], sha, intent)
         == Chain(records, sha, intent) + if r.payload.intentId == intent.id then [r] else []
  {
    assert (records + [r])[..|records|] == records;
    if r.payload.intentId == intent.id {
      var s := Select(records, sha, intent.id).value;
      assert (s + [r])[..|s|] == s;
      SelectMembers(records, sha, intent.id);
      SortMembers(s, IdLe);
      var sorted := SortById(s);
      if sorted != [] {
        assert sorted[|sorted| - 1] in s;
      }
    }
  }

  /** If ids grow in append order, a rejected history stays rejected after every further append. */
  lemma {:induction false} RejectionIsPermanent(
      records: seq<Record>, more: seq<Record>, sha: string, intent: OwnershipIntent)
    requires Reconstruct(records, sha, intent).Err?
    requires forall i, j | 0 <= i < j < |records + more| :: (records + more)[i].id < (records + more)[j].id
    ensures Reconstruct(records + more, sha, intent).Err?
  {
    if more == [] {
      assert records + more == records;
    } else {
      var n := |more| - 1;
      var before := records + more[..n];
      assert records + more == before + [more[n]];
      assert forall i | 0 <= i < |before| :: before[i] == (records + more)[i];
      assert more[n] == (records + more)[|before|];
      RejectionIsPermanent(records, more[..n], sha, intent);
      RejectedAppendRejected(before, more[n], sha, intent);
    }
  }

  lemma RejectedAppendRejected(records: seq<Record>, r: Record, sha: string, intent: OwnershipIntent)
    requires Reconstruct(records, sha, intent).Err?
    requires forall i | 0 <= i < |records| :: records[i].id < r.id
    ensures Reconstruct(records + [r], sha, intent).Err?
  {
    assert (records + [r])[..|records|] == records;
    if Select(records + [r], sha, intent.id).Ok? {
      AppendToChain(records, r, sha, intent);
      var chain := Chain(records, sha, intent);
      assert (chain + [r])[..|chain|] == chain;
      assert chain + [] == chain;
    }
  }

  // ---------------------------------------------------------------- namespaces

  function OwnRecords(records: seq<Record>, id: string): seq<Record> {
    if records == [] then []
    else
      var n := |records| - 1;
      OwnRecords(records[..n], id) + if records[n].payload.intentId == id then [records[n]] else []
  }

  lemma IntentIdsDiffer(sha: string)
    ensures IntentId(Item19, sha) != IntentId(Item20, sha)
  {
    assert IntentId(Item19, sha)[0] == 'c' && IntentId(Item20, sha)[0] == 'i';
  }

  lemma {:induction false} SelectOwn(records: seq<Record>, sha: string, id: string)
    requires AllValid(records, sha)
    ensures Select(OwnRecords(records, id), sha, id) == Select(records, sha, id) == Ok(OwnRecords(records, id))
  {
    if records != [] {
      var n := |records| - 1;
      assert forall r | r in records[..n] :: r in records;
      SelectOwn(records[..n], sha, id);
      assert CheckEnvelope(records[n], sha).Ok?;
      var own := OwnRecords(records[..n], id);
      assert (own + [records[n]])[..|own|] == own;
      assert own + [] == own;
    }
  }

  /**
    Non-interference: over envelope-valid histories the state of an intent is the
    state of its own records alone, and one invalid record makes every intent refuse.
   */
  lemma NamespaceNonInterference(records: seq<Record>, sha: string, intent: OwnershipIntent)
    ensures AllValid(records, sha) ==>
              Reconstruct(records, sha, intent) == Reconstruct(OwnRecords(records, intent.id), sha, intent)
    ensures !AllValid(records, sha) ==> Reconstruct(records, sha, intent).Err?
  {
    SelectFilters(records, sha, intent.id);
    if AllValid(records, sha) {
      SelectOwn(records, sha, intent.id);
    }
  }
}
