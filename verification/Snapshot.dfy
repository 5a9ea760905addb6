/**
  Control-plane snapshots, their validity (snapshot_validation.rs) and their relational form
  (snapshot.rs, `materialize`). Digests and JSON texts are arbitrary injective functions.
 */
module Snapshot {
  import opened Wrappers
  import opened SnapshotTables

  const MAX_REGISTERED_DEVICES: nat := 10_000
  const MAX_IDEMPOTENCY_RESULTS: nat := 1_000
  const MAX_PENDING_COMMANDS: nat := 1_000
  const MAX_COMMAND_QUEUE_PER_DEVICE: nat := 50

  datatype DesiredState = HealthyServing | DegradedSafe
  datatype RecoveryIntent = NoRecovery | RouteRepair | RestartRuntime | RotateRecovery

  type CommandId = s: string | s != "" witness "0"

  datatype Command = Command(
    commandId: CommandId,
    deviceId: string,
    desiredState: DesiredState,
    recoveryIntent: RecoveryIntent,
    deadlineSecs: nat,
    idempotencyKey: string,
    issuedAt: string)

  /** A device record: its identity and the rest of its fields. */
  datatype Device = Device(nodeId: string, fields: string)

  /** The fields the request fingerprint covers: the request without its idempotency key. */
  datatype Request = Request(
    deviceId: string,
    desiredState: DesiredState,
    recoveryIntent: RecoveryIntent,
    deadlineSecs: nat)

  function RequestOf(c: Command): Request {
    Request(c.deviceId, c.desiredState, c.recoveryIntent, c.deadlineSecs)
  }

  datatype ReplayRecord = ReplayRecord(scopeKey: string, fingerprint: string, command: Command)

  datatype ControlPlane = ControlPlane(
    devices: map<string, Device>,
    queues: map<string, seq<Command>>,
    replay: seq<ReplayRecord>)

  /** The digests and encoders in use. */
  datatype Codec = Codec(
    scope: (string, string) -> string,
    fingerprint: Request -> string,
    commandJson: Command -> string,
    deviceJson: Device -> string,
    isJson: string -> bool)

  /** Digest texts are never empty and do not collide; encoders produce JSON and lose nothing. */
  ghost predicate Sound(k: Codec) {
    && (forall d, i :: k.scope(d, i) != "")
    && (forall d, i, d', i' :: k.scope(d, i) == k.scope(d', i') ==> d == d' && i == i')
    && (forall q :: k.fingerprint(q) != "")
    && (forall q, q' :: k.fingerprint(q) == k.fingerprint(q') ==> q == q')
    && (forall c :: k.isJson(k.commandJson(c)))
    && (forall c, c' :: k.commandJson(c) == k.commandJson(c') ==> c == c')
    && (forall d :: k.isJson(k.deviceJson(d)))
  }

  function ScopeOf(k: Codec, c: Command): string {
    k.scope(c.deviceId, c.idempotencyKey)
  }

  /** ReplayRecord::from_command. */
  function FromCommand(k: Codec, c: Command): ReplayRecord {
    ReplayRecord(ScopeOf(k, c), k.fingerprint(RequestOf(c)), c)
  }

  // ---------------------------------------------------------------- validity

  /** The position of a command in the queues. */
  predicate Queued(s: ControlPlane, d: string, i: int) {
    d in s.queues && 0 <= i < |s.queues[d]|
  }

  predicate ValidDevices(s: ControlPlane) {
    && |s.devices| <= MAX_REGISTERED_DEVICES
    && forall n | n in s.devices :: n != "" && s.devices[n].nodeId == n
  }

  predicate ValidReplay(k: Codec, s: ControlPlane) {
    && |s.replay| <= MAX_IDEMPOTENCY_RESULTS
    && (forall i | 0 <= i < |s.replay| ::
          s.replay[i].command.deviceId != "" && s.replay[i] == FromCommand(k, s.replay[i].command))
    && (forall i, j | 0 <= i < j < |s.replay| :: s.replay[i].scopeKey != s.replay[j].scopeKey)
    && (forall i, j | 0 <= i < j < |s.replay| :: s.replay[i].command.commandId != s.replay[j].command.commandId)
  }

  ghost predicate Replayed(s: ControlPlane, c: Command) {
    exists i :: 0 <= i < |s.replay| && s.replay[i].command == c
  }

  /** One element per pending row. */
  function PendingPositions(s: ControlPlane): set<(string, int)> {
    set d, i | d in s.queues && 0 <= i < |s.queues[d]| :: (d, i)
  }

  ghost predicate DistinctPending(s: ControlPlane) {
    forall d, i, d', i' | Queued(s, d, i) && Queued(s, d', i')
                          && s.queues[d][i].commandId == s.queues[d'][i'].commandId :: d == d' && i == i'
  }

  ghost predicate ValidPending(s: ControlPlane) {
    && |PendingPositions(s)| <= MAX_PENDING_COMMANDS
    && (forall d | d in s.queues :: |s.queues[d]| <= MAX_COMMAND_QUEUE_PER_DEVICE)
    && (forall d, i | Queued(s, d, i) ::
          d != "" && s.queues[d][i].deviceId == d && Replayed(s, s.queues[d][i]))
    && DistinctPending(s)
  }

  /** A snapshot that its own validation accepts; queue positions are contiguous by construction. */
  ghost predicate Valid(k: Codec, s: ControlPlane) {
    ValidDevices(s) && ValidReplay(k, s) && ValidPending(s)
  }

  /**
    What scope and fingerprint tell apart: the scope, device and idempotency key; the
    fingerprint, everything requested but the idempotency key. Neither sees who issued the
    command under which id, or when.
   */
  lemma RecordsCompare(k: Codec, a: Command, b: Command)
    requires Sound(k)
    ensures FromCommand(k, a).scopeKey == FromCommand(k, b).scopeKey
       <==> a.deviceId == b.deviceId && a.idempotencyKey == b.idempotencyKey
    ensures FromCommand(k, a).fingerprint == FromCommand(k, b).fingerprint
       <==> a.deviceId == b.deviceId && a.desiredState == b.desiredState
            && a.recoveryIntent == b.recoveryIntent && a.deadlineSecs == b.deadlineSecs
    ensures FromCommand(k, a).command == a
  {
  }

  datatype SnapshotViolation =
    | DeviceCapacityExceeded
    | ReplayCapacityExceeded
    | PendingCapacityExceeded
    | DeviceQueueCapacityExceeded
    | DeviceKeyMismatch
    | EmptyDeviceId
    | ReplayScopeMismatch
    | DuplicateReplayScope
    | DuplicateCommandId
    | ReplayEvidenceMismatch
    | PendingDeviceMismatch
    | DuplicatePendingCommand
    | PendingReplayMissing
    | PendingReplayMismatch

  ghost predicate RepeatsScope(s: ControlPlane) {
    exists i, j :: 0 <= i < j < |s.replay| && s.replay[i].scopeKey == s.replay[j].scopeKey
  }

  ghost predicate RepeatsCommand(s: ControlPlane) {
    exists i, j :: 0 <= i < j < |s.replay| && s.replay[i].command.commandId == s.replay[j].command.commandId
  }

  ghost predicate HasReplayId(s: ControlPlane, id: string) {
    exists i :: 0 <= i < |s.replay| && s.replay[i].command.commandId == id
  }

  /** What each reported violation says about the snapshot. */
  ghost predicate Violates(k: Codec, s: ControlPlane, v: SnapshotViolation) {
    match v
    case DeviceCapacityExceeded => |s.devices| > MAX_REGISTERED_DEVICES
    case ReplayCapacityExceeded => |s.replay| > MAX_IDEMPOTENCY_RESULTS
    case PendingCapacityExceeded => |PendingPositions(s)| > MAX_PENDING_COMMANDS
    case DeviceQueueCapacityExceeded => exists d | d in s.queues :: |s.queues[d]| > MAX_COMMAND_QUEUE_PER_DEVICE
    case DeviceKeyMismatch => exists n | n in s.devices :: n == "" || s.devices[n].nodeId != n
    case EmptyDeviceId =>
      || (exists i :: 0 <= i < |s.replay| && s.replay[i].command.deviceId == "")
      || (exists d, i :: Queued(s, d, i) && (d == "" || s.queues[d][i].deviceId == ""))
    case ReplayScopeMismatch =>
      exists i :: 0 <= i < |s.replay| && s.replay[i].scopeKey != ScopeOf(k, s.replay[i].command)
    case DuplicateReplayScope => RepeatsScope(s)
    case DuplicateCommandId => RepeatsCommand(s)
    case ReplayEvidenceMismatch =>
      exists i :: 0 <= i < |s.replay| && s.replay[i].fingerprint != k.fingerprint(RequestOf(s.replay[i].command))
    case PendingDeviceMismatch => exists d, i :: Queued(s, d, i) && s.queues[d][i].deviceId != d
    case DuplicatePendingCommand => !DistinctPending(s)
    case PendingReplayMissing => exists d, i :: Queued(s, d, i) && !HasReplayId(s, s.queues[d][i].commandId)
    case PendingReplayMismatch =>
      exists d, i :: Queued(s, d, i) && HasReplayId(s, s.queues[d][i].commandId) && !Replayed(s, s.queues[d][i])
  }

  /** The capacities, in numbers, and what they count. */
  lemma Capacities(k: Codec, s: ControlPlane)
    ensures Violates(k, s, DeviceCapacityExceeded) <==> |s.devices| > 10_000
    ensures Violates(k, s, ReplayCapacityExceeded) <==> |s.replay| > 1_000
    ensures Violates(k, s, PendingCapacityExceeded) <==> |PendingPositions(s)| > 1_000
    ensures Violates(k, s, DeviceQueueCapacityExceeded) <==> exists d | d in s.queues :: |s.queues[d]| > 50
    ensures forall d, i :: (d, i) in PendingPositions(s) <==> Queued(s, d, i)
  {
  }

  /** Validity is the absence of every violation. */
  lemma ValidIffNoViolation(k: Codec, s: ControlPlane)
    ensures Valid(k, s) <==> forall v :: !Violates(k, s, v)
  {
    if forall v :: !Violates(k, s, v) {
      NoReplayViolation(k, s);
      NoPendingViolation(k, s);
      assert !Violates(k, s, DeviceCapacityExceeded) && !Violates(k, s, DeviceKeyMismatch);
    }
    if Valid(k, s) {
      forall v ensures !Violates(k, s, v) {
        ViolationInvalidates(k, s, v);
      }
    }
  }

  lemma ViolationInvalidates(k: Codec, s: ControlPlane, v: SnapshotViolation)
    ensures Violates(k, s, v) ==> !Valid(k, s)
  {
    if Valid(k, s) {
      forall i | 0 <= i < |s.replay|
        ensures && s.replay[i].scopeKey == ScopeOf(k, s.replay[i].command)
                && s.replay[i].fingerprint == k.fingerprint(RequestOf(s.replay[i].command))
      {
        assert s.replay[i] == FromCommand(k, s.replay[i].command);
      }
      forall c | Replayed(s, c) ensures HasReplayId(s, c.commandId) {
      }
    }
  }

  lemma NoReplayViolation(k: Codec, s: ControlPlane)
    requires forall v :: !Violates(k, s, v)
    ensures ValidReplay(k, s)
  {
    assert !Violates(k, s, ReplayCapacityExceeded) && !Violates(k, s, EmptyDeviceId);
    assert !Violates(k, s, ReplayScopeMismatch) && !Violates(k, s, ReplayEvidenceMismatch);
    assert !Violates(k, s, DuplicateReplayScope) && !Violates(k, s, DuplicateCommandId);
  }

  lemma NoPendingViolation(k: Codec, s: ControlPlane)
    requires forall v :: !Violates(k, s, v)
    ensures ValidPending(s)
  {
    assert !Violates(k, s, PendingCapacityExceeded) && !Violates(k, s, DeviceQueueCapacityExceeded);
    assert !Violates(k, s, EmptyDeviceId) && !Violates(k, s, PendingDeviceMismatch);
    assert !Violates(k, s, DuplicatePendingCommand);
    assert !Violates(k, s, PendingReplayMissing) && !Violates(k, s, PendingReplayMismatch);
  }

  method ValidateDevices(s: ControlPlane) returns (r: Result<(), SnapshotViolation>)
    ensures r.Err? ==> r.error == DeviceKeyMismatch
    ensures r.Ok? <==> forall n | n in s.devices :: n != "" && s.devices[n].nodeId == n
  {
    var todo := s.devices.Keys;
    while todo != {}
      invariant todo <= s.devices.Keys
      invariant forall n | n in s.devices && n !in todo :: n != "" && s.devices[n].nodeId == n
      decreases todo
    {
      var n :| n in todo;
      if n == "" || s.devices[n].nodeId != n {
        return Err(DeviceKeyMismatch);
      }
      todo := todo - {n};
    }
    return Ok(());
  }

  function ScopesOf(replay: seq<ReplayRecord>): set<string> {
    set i | 0 <= i < |replay| :: replay[i].scopeKey
  }

  function IdsOf(replay: seq<ReplayRecord>): set<string> {
    set i | 0 <= i < |replay| :: replay[i].command.commandId
  }

  predicate RecordIndexed(k: Codec, r: ReplayRecord, byScope: map<string, Command>, scopeOf: map<string, string>) {
    && r.command.deviceId != ""
    && r.scopeKey == ScopeOf(k, r.command)
    && r.scopeKey in byScope && byScope[r.scopeKey] == r.command
    && r.command.commandId in scopeOf && scopeOf[r.command.commandId] == r.scopeKey
  }

  /** The replay records, indexed by scope and by command. */
  ghost predicate Indexed(
      k: Codec, replay: seq<ReplayRecord>, byScope: map<string, Command>, scopeOf: map<string, string>)
  {
    && (forall i | 0 <= i < |replay| :: RecordIndexed(k, replay[i], byScope, scopeOf))
    && byScope.Keys == ScopesOf(replay)
    && scopeOf.Keys == IdsOf(replay)
  }

  ghost predicate DistinctReplay(replay: seq<ReplayRecord>) {
    forall i, j | 0 <= i < j < |replay| ::
      replay[i].scopeKey != replay[j].scopeKey && replay[i].command.commandId != replay[j].command.commandId
  }

  /** The checks on one result row, in the order of the source. */
  function CheckResultRow(k: Codec, byScope: map<string, Command>, scopeOf: map<string, string>, r: ReplayRecord)
    : Result<(), SnapshotViolation>
  {
    if r.command.deviceId == "" then Err(EmptyDeviceId)
    else if r.scopeKey != ScopeOf(k, r.command) then Err(ReplayScopeMismatch)
    else if r.scopeKey in byScope then Err(DuplicateReplayScope)
    else if r.command.commandId in scopeOf then Err(DuplicateCommandId)
    else Ok(())
  }

  ghost predicate IndexedUpTo(
      k: Codec, s: ControlPlane, n: nat, byScope: map<string, Command>, scopeOf: map<string, string>)
    requires n <= |s.replay|
  {
    Indexed(k, s.replay[..n], byScope, scopeOf) && DistinctReplay(s.replay[..n])
  }

  /** The loop over result rows, which also fills the two indexes. */
  method ValidateResults(k: Codec, s: ControlPlane)
    returns (r: Result<(), SnapshotViolation>, byScope: map<string, Command>, scopeOf: map<string, string>)
    ensures r.Ok? ==> Indexed(k, s.replay, byScope, scopeOf) && DistinctReplay(s.replay)
    ensures r.Err? ==> Violates(k, s, r.error)
  {
    byScope, scopeOf := map[], map[];
    for i := 0 to |s.replay|
      invariant IndexedUpTo(k, s, i, byScope, scopeOf)
    {
      var record := s.replay[i];
      var check := CheckResultRow(k, byScope, scopeOf, record);
      if check.Err? {
        RejectedResultIsInvalid(k, s, i, byScope, scopeOf);
        return Err(check.error), byScope, scopeOf;
      }
      IndexGrowsTo(k, s, i, byScope, scopeOf);
      byScope := byScope[record.scopeKey := record.command];
      scopeOf := scopeOf[record.command.commandId := record.scopeKey];
    }
    assert s.replay[..|s.replay|] == s.replay;
    return Ok(()), byScope, scopeOf;
  }

  lemma RejectedResultIsInvalid(
    k: Codec, s: ControlPlane, i: nat, byScope: map<string, Command>, scopeOf: map<string, string>)
    requires i < |s.replay| && IndexedUpTo(k, s, i, byScope, scopeOf)
    requires CheckResultRow(k, byScope, scopeOf, s.replay[i]).Err?
    ensures Violates(k, s, CheckResultRow(k, byScope, scopeOf, s.replay[i]).error)
  {
    var r := s.replay[i];
    if r.scopeKey in byScope {
      RepeatedScope(s, i);
    }
    if r.command.commandId in scopeOf {
      RepeatedCommand(s, i);
    }
  }

  lemma {:induction false} IndexGrowsTo(
      k: Codec, s: ControlPlane, i: nat, byScope: map<string, Command>, scopeOf: map<string, string>)
    requires i < |s.replay| && IndexedUpTo(k, s, i, byScope, scopeOf)
    requires CheckResultRow(k, byScope, scopeOf, s.replay[i]).Ok?
    ensures var r := s.replay[i];
            IndexedUpTo(k, s, i + 1, byScope[r.scopeKey := r.command], scopeOf[r.command.commandId := r.scopeKey])
  {
    SnocPrefix(s.replay, i);
    IndexGrows(k, s.replay[..i], s.replay[i], byScope, scopeOf);
  }

  lemma SnocPrefix(replay: seq<ReplayRecord>, i: nat)
    requires i < |replay|
    ensures replay[..i + 1] == replay[..i] + [replay[i]]
  {
  }

  lemma RepeatedScope(s: ControlPlane, i: nat)
    requires i < |s.replay| && s.replay[i].scopeKey in ScopesOf(s.replay[..i])
    ensures RepeatsScope(s)
  {
    var j :| 0 <= j < i && s.replay[..i][j].scopeKey == s.replay[i].scopeKey;
    assert s.replay[j].scopeKey == s.replay[i].scopeKey;
  }

  lemma RepeatedCommand(s: ControlPlane, i: nat)
    requires i < |s.replay| && s.replay[i].command.commandId in IdsOf(s.replay[..i])
    ensures RepeatsCommand(s)
  {
    var j :| 0 <= j < i && s.replay[..i][j].command.commandId == s.replay[i].command.commandId;
    assert s.replay[j].command.commandId == s.replay[i].command.commandId;
  }

  lemma ScopesSnoc(replay: seq<ReplayRecord>, record: ReplayRecord)
    ensures ScopesOf(replay + [record]) == ScopesOf(replay) + {record.scopeKey}
    ensures IdsOf(replay + [record]) == IdsOf(replay) + {record.command.commandId}
  {
    var grown := replay + [record];
    forall i | 0 <= i < |replay| ensures grown[i] == replay[i] {
    }
    assert grown[|replay|] == record;
    forall x | x in ScopesOf(replay) ensures x in ScopesOf(grown) {
      var i :| 0 <= i < |replay| && replay[i].scopeKey == x;
      assert grown[i].scopeKey == x;
    }
    forall x | x in IdsOf(replay) ensures x in IdsOf(grown) {
      var i :| 0 <= i < |replay| && replay[i].command.commandId == x;
      assert grown[i].command.commandId == x;
    }
  }

  lemma {:induction false} IndexGrows(
    k: Codec, replay: seq<ReplayRecord>, record: ReplayRecord,
    byScope: map<string, Command>, scopeOf: map<string, string>)
    requires Indexed(k, replay, byScope, scopeOf) && DistinctReplay(replay)
    requires record.command.deviceId != "" && record.scopeKey == ScopeOf(k, record.command)
    requires record.scopeKey !in byScope && record.command.commandId !in scopeOf
    ensures Indexed(k, replay + [record], byScope[record.scopeKey := record.command],
                    scopeOf[record.command.commandId := record.scopeKey])
    ensures DistinctReplay(replay + [record])
  {
    var grown := replay + [record];
    var byScope' := byScope[record.scopeKey := record.command];
    var scopeOf' := scopeOf[record.command.commandId := record.scopeKey];
    ScopesSnoc(replay, record);
    forall i | 0 <= i < |grown| ensures RecordIndexed(k, grown[i], byScope', scopeOf') {
      assert i < |replay| ==> grown[i] == replay[i] && RecordIndexed(k, replay[i], byScope, scopeOf);
    }
    DistinctGrows(k, replay, record, byScope, scopeOf);
  }

  lemma DistinctGrows(
    k: Codec, replay: seq<ReplayRecord>, record: ReplayRecord,
    byScope: map<string, Command>, scopeOf: map<string, string>)
    requires forall i | 0 <= i < |replay| :: RecordIndexed(k, replay[i], byScope, scopeOf)
    requires DistinctReplay(replay) && record.scopeKey !in byScope && record.command.commandId !in scopeOf
    ensures DistinctReplay(replay + [record])
  {
    var grown := replay + [record];
    forall i, j | 0 <= i < j < |grown|
      ensures grown[i].scopeKey != grown[j].scopeKey && grown[i].command.commandId != grown[j].command.commandId
    {
      assert grown[i] == replay[i] && RecordIndexed(k, replay[i], byScope, scopeOf);
    }
  }

  method ValidateClaims(k: Codec, s: ControlPlane) returns (r: Result<(), SnapshotViolation>)
    ensures r.Err? ==> r.error == ReplayEvidenceMismatch
    ensures r.Ok? <==>
              forall i | 0 <= i < |s.replay| :: s.replay[i].fingerprint == k.fingerprint(RequestOf(s.replay[i].command))
  {
    for i := 0 to |s.replay|
      invariant forall j | 0 <= j < i :: s.replay[j].fingerprint == k.fingerprint(RequestOf(s.replay[j].command))
    {
      if s.replay[i].fingerprint != k.fingerprint(RequestOf(s.replay[i].command)) {
        return Err(ReplayEvidenceMismatch);
      }
    }
    return Ok(());
  }

  predicate PendingRowOk(
      s: ControlPlane, byScope: map<string, Command>, scopeOf: map<string, string>, d: string, c: Command)
  {
    && d != "" && c.deviceId == d
    && c.commandId in scopeOf && scopeOf[c.commandId] in byScope && byScope[scopeOf[c.commandId]] == c
  }

  lemma IndexFindsReplayed(
      k: Codec, s: ControlPlane, byScope: map<string, Command>, scopeOf: map<string, string>, c: Command)
    requires Indexed(k, s.replay, byScope, scopeOf) && DistinctReplay(s.replay)
    ensures Replayed(s, c)
       <==> c.commandId in scopeOf && scopeOf[c.commandId] in byScope && byScope[scopeOf[c.commandId]] == c
  {
    if Replayed(s, c) {
      var j :| 0 <= j < |s.replay| && s.replay[j].command == c;
      assert RecordIndexed(k, s.replay[j], byScope, scopeOf);
    } else if c.commandId in scopeOf {
      var i :| 0 <= i < |s.replay| && s.replay[i].command.commandId == c.commandId;
      assert RecordIndexed(k, s.replay[i], byScope, scopeOf);
    }
  }

  lemma IndexFindsId(k: Codec, s: ControlPlane, byScope: map<string, Command>, scopeOf: map<string, string>, id: string)
    requires Indexed(k, s.replay, byScope, scopeOf)
    ensures HasReplayId(s, id) <==> id in scopeOf && scopeOf[id] in byScope
  {
    if id in scopeOf {
      var i :| 0 <= i < |s.replay| && s.replay[i].command.commandId == id;
      assert RecordIndexed(k, s.replay[i], byScope, scopeOf);
    }
  }

  /** The commands checked so far: queues outside `todo`, and the first `n` of queue `d`. */
  ghost predicate Visited(s: ControlPlane, todo: set<string>, d: string, n: int, e: string, i: int) {
    Queued(s, e, i) && (e !in todo || (e == d && i < n))
  }

  /** `place` locates every command seen so far. */
  ghost predicate PendingChecked(
    s: ControlPlane, byScope: map<string, Command>, scopeOf: map<string, string>,
    todo: set<string>, d: string, n: int, place: map<string, (string, int)>)
  {
    && (forall e, i | Visited(s, todo, d, n, e, i) ::
          && PendingRowOk(s, byScope, scopeOf, e, s.queues[e][i])
          && s.queues[e][i].commandId in place && place[s.queues[e][i].commandId] == (e, i))
    && (forall id | id in place ::
          && Visited(s, todo, d, n, place[id].0, place[id].1)
          && s.queues[place[id].0][place[id].1].commandId == id)
  }

  ghost predicate QueuesBounded(s: ControlPlane, todo: set<string>) {
    forall e | e in s.queues && e !in todo :: |s.queues[e]| <= MAX_COMMAND_QUEUE_PER_DEVICE
  }

  /** The checks on one pending row, in the order of the source. */
  function CheckPendingRow(
      byScope: map<string, Command>, scopeOf: map<string, string>, seen: set<string>, d: string, n: nat, c: Command)
    : Result<(), SnapshotViolation>
  {
    if d == "" || c.deviceId == "" then Err(EmptyDeviceId)
    else if d != c.deviceId then Err(PendingDeviceMismatch)
    else if c.commandId in seen then Err(DuplicatePendingCommand)
    else if c.commandId !in scopeOf || scopeOf[c.commandId] !in byScope then Err(PendingReplayMissing)
    else if byScope[scopeOf[c.commandId]] != c then Err(PendingReplayMismatch)
    else if n + 1 > MAX_COMMAND_QUEUE_PER_DEVICE then Err(DeviceQueueCapacityExceeded)
    else Ok(())
  }

  /** One pending row. */
  method ValidateRow(
    k: Codec, s: ControlPlane, byScope: map<string, Command>, scopeOf: map<string, string>,
    ghost todo: set<string>, d: string, n: nat, seen: set<string>, ghost place: map<string, (string, int)>)
    returns (r: Result<(), SnapshotViolation>, ghost place': map<string, (string, int)>)
    requires Indexed(k, s.replay, byScope, scopeOf) && DistinctReplay(s.replay)
    requires PendingChecked(s, byScope, scopeOf, todo, d, n, place) && seen == place.Keys
    requires d in todo && Queued(s, d, n)
    ensures r.Err? ==> Violates(k, s, r.error)
    ensures r.Ok? ==> n < MAX_COMMAND_QUEUE_PER_DEVICE && place'.Keys == seen + {s.queues[d][n].commandId}
    ensures r.Ok? ==> PendingChecked(s, byScope, scopeOf, todo, d, n + 1, place')
  {
    place' := place;
    r := CheckPendingRow(byScope, scopeOf, seen, d, n, s.queues[d][n]);
    if r.Err? {
      RejectedRowIsInvalid(k, s, byScope, scopeOf, todo, d, n, place);
    } else {
      CheckedGrows(s, byScope, scopeOf, todo, d, n, place);
      place' := place[s.queues[d][n].commandId := (d, n)];
    }
  }

  /** The loop over the pending rows of one device. */
  method ValidateQueue(
    k: Codec, s: ControlPlane, byScope: map<string, Command>, scopeOf: map<string, string>,
    ghost todo: set<string>, d: string, seen: set<string>, ghost place: map<string, (string, int)>)
    returns (r: Result<(), SnapshotViolation>, seen': set<string>, ghost place': map<string, (string, int)>)
    requires Indexed(k, s.replay, byScope, scopeOf) && DistinctReplay(s.replay)
    requires PendingChecked(s, byScope, scopeOf, todo, d, 0, place) && seen == place.Keys
    requires d in todo && d in s.queues
    ensures r.Err? ==> Violates(k, s, r.error)
    ensures r.Ok? ==> |s.queues[d]| <= MAX_COMMAND_QUEUE_PER_DEVICE && seen' == place'.Keys
    ensures r.Ok? ==> PendingChecked(s, byScope, scopeOf, todo - {d}, "", 0, place')
  {
    seen', place' := seen, place;
    for n := 0 to |s.queues[d]|
      invariant n <= MAX_COMMAND_QUEUE_PER_DEVICE
      invariant seen' == place'.Keys
      invariant PendingChecked(s, byScope, scopeOf, todo, d, n, place')
    {
      r, place' := ValidateRow(k, s, byScope, scopeOf, todo, d, n, seen', place');
      if r.Err? {
        return;
      }
      seen' := seen' + {s.queues[d][n].commandId};
    }
    CheckedQueue(s, byScope, scopeOf, todo, d, place');
    return Ok(()), seen', place';
  }

  /** The loop over pending rows, device by device. */
  method ValidatePending(k: Codec, s: ControlPlane, byScope: map<string, Command>, scopeOf: map<string, string>)
    returns (r: Result<(), SnapshotViolation>)
    requires Indexed(k, s.replay, byScope, scopeOf) && DistinctReplay(s.replay)
    requires |PendingPositions(s)| <= MAX_PENDING_COMMANDS
    ensures r.Ok? ==> ValidPending(s)
    ensures r.Err? ==> Violates(k, s, r.error)
  {
    ghost var place: map<string, (string, int)> := map[];
    var seen: set<string> := {};
    var todo := s.queues.Keys;
    while todo != {}
      invariant todo <= s.queues.Keys
      invariant seen == place.Keys
      invariant PendingChecked(s, byScope, scopeOf, todo, "", 0, place)
      invariant QueuesBounded(s, todo)
      decreases todo
    {
      var d :| d in todo;
      CheckedStart(s, byScope, scopeOf, todo, d, place);
      r, seen, place := ValidateQueue(k, s, byScope, scopeOf, todo, d, seen, place);
      if r.Err? {
        return;
      }
      todo := todo - {d};
    }
    CheckedAll(k, s, byScope, scopeOf, place);
    return Ok(());
  }

  lemma CheckedStart(
    s: ControlPlane, byScope: map<string, Command>, scopeOf: map<string, string>,
    todo: set<string>, d: string, place: map<string, (string, int)>)
    requires PendingChecked(s, byScope, scopeOf, todo, "", 0, place)
    ensures PendingChecked(s, byScope, scopeOf, todo, d, 0, place)
  {
    forall e, i ensures Visited(s, todo, "", 0, e, i) <==> Visited(s, todo, d, 0, e, i) {
    }
  }

  lemma RejectedRowIsInvalid(
    k: Codec, s: ControlPlane, byScope: map<string, Command>, scopeOf: map<string, string>,
    todo: set<string>, d: string, n: nat, place: map<string, (string, int)>)
    requires Indexed(k, s.replay, byScope, scopeOf) && DistinctReplay(s.replay)
    requires PendingChecked(s, byScope, scopeOf, todo, d, n, place) && d in todo && Queued(s, d, n)
    requires CheckPendingRow(byScope, scopeOf, place.Keys, d, n, s.queues[d][n]).Err?
    ensures Violates(k, s, CheckPendingRow(byScope, scopeOf, place.Keys, d, n, s.queues[d][n]).error)
  {
    var c := s.queues[d][n];
    IndexFindsReplayed(k, s, byScope, scopeOf, c);
    IndexFindsId(k, s, byScope, scopeOf, c.commandId);
    if c.commandId in place {
      var (e, i) := place[c.commandId];
      assert Visited(s, todo, d, n, e, i);
      assert Queued(s, e, i) && s.queues[e][i].commandId == c.commandId;
      assert !DistinctPending(s);
    }
  }

  lemma CheckedAll(
      k: Codec, s: ControlPlane, byScope: map<string, Command>, scopeOf: map<string, string>, place: map<string,
      (string, int)>)
    requires Indexed(k, s.replay, byScope, scopeOf) && DistinctReplay(s.replay)
    requires PendingChecked(s, byScope, scopeOf, {}, "", 0, place) && QueuesBounded(s, {})
    requires |PendingPositions(s)| <= MAX_PENDING_COMMANDS
    ensures ValidPending(s)
  {
    forall e, i | Queued(s, e, i)
      ensures Replayed(s, s.queues[e][i]) && e != "" && s.queues[e][i].deviceId == e
      ensures s.queues[e][i].commandId in place && place[s.queues[e][i].commandId] == (e, i)
    {
      assert Visited(s, {}, "", 0, e, i);
      IndexFindsReplayed(k, s, byScope, scopeOf, s.queues[e][i]);
    }
  }

  lemma CheckedGrows(
    s: ControlPlane, byScope: map<string, Command>, scopeOf: map<string, string>,
    todo: set<string>, d: string, n: nat, place: map<string, (string, int)>)
    requires PendingChecked(s, byScope, scopeOf, todo, d, n, place)
    requires d in todo && Queued(s, d, n)
    requires CheckPendingRow(byScope, scopeOf, place.Keys, d, n, s.queues[d][n]).Ok?
    ensures n + 1 <= MAX_COMMAND_QUEUE_PER_DEVICE
    ensures PendingChecked(s, byScope, scopeOf, todo, d, n + 1, place[s.queues[d][n].commandId := (d, n)])
  {
    var place' := place[s.queues[d][n].commandId := (d, n)];
    forall e, i | Visited(s, todo, d, n + 1, e, i)
      ensures && PendingRowOk(s, byScope, scopeOf, e, s.queues[e][i])
              && s.queues[e][i].commandId in place' && place'[s.queues[e][i].commandId] == (e, i)
    {
      if !(e == d && i == n) {
        assert Visited(s, todo, d, n, e, i);
      }
    }
    forall id | id in place'
      ensures Visited(s, todo, d, n + 1, place'[id].0, place'[id].1)
              && s.queues[place'[id].0][place'[id].1].commandId == id
    {
      if id != s.queues[d][n].commandId {
        assert Visited(s, todo, d, n, place[id].0, place[id].1);
      }
    }
  }

  lemma CheckedQueue(
    s: ControlPlane, byScope: map<string, Command>, scopeOf: map<string, string>,
    todo: set<string>, d: string, place: map<string, (string, int)>)
    requires d in todo && d in s.queues
    requires PendingChecked(s, byScope, scopeOf, todo, d, |s.queues[d]|, place)
    ensures PendingChecked(s, byScope, scopeOf, todo - {d}, "", 0, place)
  {
    forall e, i ensures Visited(s, todo, d, |s.queues[d]|, e, i) <==> Visited(s, todo - {d}, "", 0, e, i) {
    }
  }

  /**
    ControlPlaneSnapshot::validate: the checks of validate_rows on the snapshot's own rows.
    Success means validity; a violation that is reported is one the snapshot has.
   */
  method Validate(k: Codec, s: ControlPlane) returns (r: Result<(), SnapshotViolation>)
    ensures r.Ok? <==> Valid(k, s)
    ensures r.Err? ==> Violates(k, s, r.error)
  {
    r := ValidateRows(k, s);
    ValidIffNoViolation(k, s);
  }

  method ValidateRows(k: Codec, s: ControlPlane) returns (r: Result<(), SnapshotViolation>)
    ensures r.Ok? ==> Valid(k, s)
    ensures r.Err? ==> Violates(k, s, r.error)
  {
    if |s.devices| > MAX_REGISTERED_DEVICES {
      return Err(DeviceCapacityExceeded);
    }
    if |s.replay| > MAX_IDEMPOTENCY_RESULTS {
      return Err(ReplayCapacityExceeded);
    }
    if |PendingPositions(s)| > MAX_PENDING_COMMANDS {
      return Err(PendingCapacityExceeded);
    }
    r := ValidateDevices(s);
    if r.Err? {
      return;
    }
    var byScope, scopeOf;
    r, byScope, scopeOf := ValidateResults(k, s);
    if r.Err? {
      return;
    }
    r := ValidateClaims(k, s);
    if r.Err? {
      return;
    }
    assert ValidReplay(k, s);
    r := ValidatePending(k, s, byScope, scopeOf);
  }

  // ---------------------------------------------------------------- the relational form

  function DeviceRows(k: Codec, devices: map<string, Device>): map<string, string> {
    map n | n in devices :: k.deviceJson(devices[n])
  }

  function ResultRows(k: Codec, replay: seq<ReplayRecord>): map<string, Row2> {
    if replay == [] then map[]
    else
      var last := replay[|replay| - 1];
      ResultRows(k, replay[..|replay| - 1])
        [last.scopeKey := Row2(last.command.commandId, k.commandJson(last.command))]
  }

  function ClaimRows(replay: seq<ReplayRecord>): map<string, Row2> {
    if replay == [] then map[]
    else
      var last := replay[|replay| - 1];
      ClaimRows(replay[..|replay| - 1])[last.scopeKey := Row2(last.command.commandId, last.fingerprint)]
  }

  ghost function PendingRows(k: Codec, s: ControlPlane): map<string, PendingRow>
    requires DistinctPending(s)
  {
    map d, i | Queued(s, d, i) && d in s.queues && 0 <= i < |s.queues[d]| ::
      s.queues[d][i].commandId := PendingRow(d, i, k.commandJson(s.queues[d][i]))
  }

  ghost function Relational(k: Codec, s: ControlPlane): Tables
    requires DistinctPending(s)
  {
    Tables(DeviceRows(k, s.devices), ResultRows(k, s.replay), ClaimRows(s.replay), PendingRows(k, s))
  }

  /** One row per queued command id, each the row of a command with that id. */
  ghost predicate IsPendingTable(k: Codec, s: ControlPlane, m: map<string, PendingRow>) {
    PendingSoFar(k, s, {}, "", 0, m)
  }

  /** The insertion loops of materialize; a repeated pending command would keep the row inserted last. */
  method Materialize(k: Codec, s: ControlPlane) returns (t: Tables)
    ensures t.devices == DeviceRows(k, s.devices)
    ensures t.results == ResultRows(k, s.replay) && t.claims == ClaimRows(s.replay)
    ensures IsPendingTable(k, s, t.pending)
    ensures DistinctPending(s) ==> t == Relational(k, s)
  {
    var devices := map n | n in s.devices :: k.deviceJson(s.devices[n]);
    var results, claims := map[], map[];
    for i := 0 to |s.replay|
      invariant results == ResultRows(k, s.replay[..i]) && claims == ClaimRows(s.replay[..i])
    {
      assert s.replay[..i + 1][..i] == s.replay[..i];
      var replay := s.replay[i];
      results := results[replay.scopeKey := Row2(replay.command.commandId, k.commandJson(replay.command))];
      claims := claims[replay.scopeKey := Row2(replay.command.commandId, replay.fingerprint)];
    }
    assert s.replay[..|s.replay|] == s.replay;
    var pending := MaterializePending(k, s);
    t := Tables(devices, results, claims, pending);
  }

  ghost predicate RowFrom(k: Codec, s: ControlPlane, todo: set<string>, d: string, n: int, id: string, row: PendingRow)
  {
    exists e, i :: Visited(s, todo, d, n, e, i) && s.queues[e][i].commandId == id
                   && row == PendingRow(e, i, k.commandJson(s.queues[e][i]))
  }

  /** Rows for the queues outside `todo` and the first `n` commands of queue `d`. */
  ghost predicate PendingSoFar(
    k: Codec, s: ControlPlane, todo: set<string>, d: string, n: int, m: map<string, PendingRow>)
  {
    && (forall e, i | Visited(s, todo, d, n, e, i) :: s.queues[e][i].commandId in m)
    && (forall id | id in m :: RowFrom(k, s, todo, d, n, id, m[id]))
  }

  lemma RowFromLater(
    k: Codec, s: ControlPlane, todo: set<string>, d: string, n: int, todo': set<string>, d': string, n': int,
    id: string, row: PendingRow)
    requires RowFrom(k, s, todo, d, n, id, row)
    requires forall e, i | Visited(s, todo, d, n, e, i) :: Visited(s, todo', d', n', e, i)
    ensures RowFrom(k, s, todo', d', n', id, row)
  {
    var e, i :| Visited(s, todo, d, n, e, i) && s.queues[e][i].commandId == id
                && row == PendingRow(e, i, k.commandJson(s.queues[e][i]));
    assert Visited(s, todo', d', n', e, i);
  }

  /** The same commands have been visited, so the rows are as complete as before. */
  lemma PendingCarries(
    k: Codec, s: ControlPlane, todo: set<string>, d: string, n: int, todo': set<string>, d': string, n': int,
    m: map<string, PendingRow>)
    requires PendingSoFar(k, s, todo, d, n, m)
    requires forall e, i :: Visited(s, todo, d, n, e, i) <==> Visited(s, todo', d', n', e, i)
    ensures PendingSoFar(k, s, todo', d', n', m)
  {
    forall id | id in m ensures RowFrom(k, s, todo', d', n', id, m[id]) {
      RowFromLater(k, s, todo, d, n, todo', d', n', id, m[id]);
    }
  }

  lemma PendingGrows(k: Codec, s: ControlPlane, todo: set<string>, d: string, n: nat, m: map<string, PendingRow>)
    requires PendingSoFar(k, s, todo, d, n, m) && d in todo && Queued(s, d, n)
    ensures var c := s.queues[d][n];
            PendingSoFar(k, s, todo, d, n + 1, m[c.commandId := PendingRow(d, n, k.commandJson(c))])
  {
    var c := s.queues[d][n];
    var m' := m[c.commandId := PendingRow(d, n, k.commandJson(c))];
    assert Visited(s, todo, d, n + 1, d, n);
    forall id | id in m' ensures RowFrom(k, s, todo, d, n + 1, id, m'[id]) {
      if id != c.commandId {
        RowFromLater(k, s, todo, d, n, todo, d, n + 1, id, m[id]);
      }
    }
    forall e, i | Visited(s, todo, d, n + 1, e, i) ensures s.queues[e][i].commandId in m' {
      assert (e == d && i == n) || Visited(s, todo, d, n, e, i);
    }
  }

  lemma PendingRowAt(k: Codec, s: ControlPlane, d: string, i: int)
    requires DistinctPending(s) && Queued(s, d, i)
    ensures s.queues[d][i].commandId in PendingRows(k, s)
    ensures PendingRows(k, s)[s.queues[d][i].commandId] == PendingRow(d, i, k.commandJson(s.queues[d][i]))
  {
  }

  lemma PendingComplete(k: Codec, s: ControlPlane, m: map<string, PendingRow>)
    requires DistinctPending(s) && IsPendingTable(k, s, m)
    ensures m == PendingRows(k, s)
  {
    var rows := PendingRows(k, s);
    forall id | id in m ensures id in rows && rows[id] == m[id] {
      assert RowFrom(k, s, {}, "", 0, id, m[id]);
      var e, i :| Visited(s, {}, "", 0, e, i) && s.queues[e][i].commandId == id
                  && m[id] == PendingRow(e, i, k.commandJson(s.queues[e][i]));
      PendingRowAt(k, s, e, i);
    }
    forall id | id in rows ensures id in m {
      var e, i :| Queued(s, e, i) && s.queues[e][i].commandId == id;
      assert Visited(s, {}, "", 0, e, i);
    }
  }

  method MaterializePending(k: Codec, s: ControlPlane) returns (pending: map<string, PendingRow>)
    ensures IsPendingTable(k, s, pending)
    ensures DistinctPending(s) ==> pending == PendingRows(k, s)
  {
    pending := map[];
    var todo := s.queues.Keys;
    while todo != {}
      invariant todo <= s.queues.Keys
      invariant PendingSoFar(k, s, todo, "", 0, pending)
      decreases todo
    {
      var d :| d in todo;
      pending := MaterializeQueue(k, s, todo, d, pending);
      todo := todo - {d};
    }
    if DistinctPending(s) {
      PendingComplete(k, s, pending);
    }
  }

  method MaterializeQueue(
      k: Codec, s: ControlPlane, ghost todo: set<string>, d: string, before: map<string, PendingRow>)
    returns (pending: map<string, PendingRow>)
    requires d in todo && d in s.queues && PendingSoFar(k, s, todo, "", 0, before)
    ensures PendingSoFar(k, s, todo - {d}, "", 0, pending)
  {
    pending := before;
    var queue := s.queues[d];
    PendingCarries(k, s, todo, "", 0, todo, d, 0, pending);
    for i := 0 to |queue|
      invariant PendingSoFar(k, s, todo, d, i, pending)
    {
      PendingGrows(k, s, todo, d, i, pending);
      pending := pending[queue[i].commandId := PendingRow(d, i, k.commandJson(queue[i]))];
    }
    PendingCarries(k, s, todo, d, |queue|, todo - {d}, "", 0, pending);
  }

  // ---------------------------------------------------------------- facts about the relational form

  /** Every replay record with a scope of its own is found under that scope. */
  lemma {:induction false} ReplayRowAt(k: Codec, replay: seq<ReplayRecord>, i: nat)
    requires i < |replay|
    requires forall j | i < j < |replay| :: replay[j].scopeKey != replay[i].scopeKey
    ensures var scope, c := replay[i].scopeKey, replay[i].command;
            && scope in ResultRows(k, replay)
            && ResultRows(k, replay)[scope] == Row2(c.commandId, k.commandJson(c))
            && scope in ClaimRows(replay)
            && ClaimRows(replay)[scope] == Row2(c.commandId, replay[i].fingerprint)
  {
    var n := |replay| - 1;
    if i < n {
      ReplayRowAt(k, replay[..n], i);
    }
  }

  lemma {:induction false} ReplayRowSource(k: Codec, replay: seq<ReplayRecord>, scope: string) returns (i: nat)
    requires scope in ResultRows(k, replay) || scope in ClaimRows(replay)
    ensures i < |replay| && replay[i].scopeKey == scope
  {
    var n := |replay| - 1;
    if replay[n].scopeKey == scope {
      i := n;
    } else {
      i := ReplayRowSource(k, replay[..n], scope);
    }
  }

  /** The replay record behind a scope of the tables. */
  lemma RowSource(k: Codec, s: ControlPlane, scope: string) returns (i: nat)
    requires ValidReplay(k, s) && (scope in ResultRows(k, s.replay) || scope in ClaimRows(s.replay))
    ensures i < |s.replay| && s.replay[i].scopeKey == scope
    ensures scope in ResultRows(k, s.replay) && scope in ClaimRows(s.replay)
    ensures ResultRows(k, s.replay)[scope] == Row2(s.replay[i].command.commandId, k.commandJson(s.replay[i].command))
    ensures var c := s.replay[i].command;
            ClaimRows(s.replay)[scope] == Row2(c.commandId, k.fingerprint(RequestOf(c)))
    ensures scope == ScopeOf(k, s.replay[i].command)
  {
    i := ReplayRowSource(k, s.replay, scope);
    ReplayRowAt(k, s.replay, i);
    assert s.replay[i] == FromCommand(k, s.replay[i].command);
  }

  lemma PendingSource(k: Codec, s: ControlPlane, id: string) returns (d: string, i: nat)
    requires ValidPending(s) && id in PendingRows(k, s)
    ensures Queued(s, d, i) && s.queues[d][i].commandId == id
    ensures PendingRows(k, s)[id] == PendingRow(d, i, k.commandJson(s.queues[d][i]))
  {
    d, i :| Queued(s, d, i) && s.queues[d][i].commandId == id;
  }
}
