/**
  Encodings with the properties the snapshot and release models ask of digests and JSON exist,
  so the results that rely on them are not vacuous.
 */
module CodecWitness {
  import opened Wrappers
  import Snapshot
  import ReleaseIntegrity

  /** A self-delimiting field: each character marked, then an end mark. */
  function Field(s: string): string {
    if s == "" then "." else ['x', s[0]] + Field(s[1..])
  }

  function Pack(fields: seq<string>): string {
    if fields == [] then "" else Field(fields[0]) + Pack(fields[1..])
  }

  lemma {:induction false} FieldsCancel(a: string, b: string, ra: string, rb: string)
    requires Field(a) + ra == Field(b) + rb
    ensures a == b && ra == rb
  {
    var x, y := Field(a) + ra, Field(b) + rb;
    assert x[0] == Field(a)[0] && y[0] == Field(b)[0];
    if a == "" {
      assert x[1..] == ra && y[1..] == rb;
    } else {
      assert x[1] == a[0] && y[1] == b[0];
      assert x[2..] == Field(a[1..]) + ra && y[2..] == Field(b[1..]) + rb;
      FieldsCancel(a[1..], b[1..], ra, rb);
      assert a == [a[0]] + a[1..] && b == [b[0]] + b[1..];
    }
  }

  lemma {:induction false} PackInjective(a: seq<string>, b: seq<string>)
    requires Pack(a) == Pack(b)
    ensures a == b
  {
    if a != [] && b != [] {
      FieldsCancel(a[0], b[0], Pack(a[1..]), Pack(b[1..]));
      PackInjective(a[1..], b[1..]);
      assert a == [a[0]] + a[1..] && b == [b[0]] + b[1..];
    }
  }

  function Unary(n: nat): (s: string)
    ensures |s| == n
  {
    seq(n, _ => '1')
  }

  function DesiredText(d: Snapshot.DesiredState): string {
    match d
    case HealthyServing => "h"
    case DegradedSafe => "d"
  }

  function RecoveryText(r: Snapshot.RecoveryIntent): string {
    match r
    case NoRecovery => "n"
    case RouteRepair => "p"
    case RestartRuntime => "s"
    case RotateRecovery => "r"
  }

  function RequestFields(q: Snapshot.Request): seq<string> {
    [q.deviceId, DesiredText(q.desiredState), RecoveryText(q.recoveryIntent), Unary(q.deadlineSecs)]
  }

  function CommandFields(c: Snapshot.Command): seq<string> {
    [c.commandId, c.idempotencyKey, c.issuedAt] + RequestFields(Snapshot.RequestOf(c))
  }

  lemma RequestFieldsInjective(p: Snapshot.Request, q: Snapshot.Request)
    requires RequestFields(p) == RequestFields(q)
    ensures p == q
  {
    var a, b := RequestFields(p), RequestFields(q);
    assert a[0] == b[0] && a[1] == b[1] && a[2] == b[2] && a[3] == b[3];
    assert a[1][0] == b[1][0] && a[2][0] == b[2][0];
    assert |a[3]| == |b[3]|;
  }

  lemma CommandFieldsInjective(c: Snapshot.Command, d: Snapshot.Command)
    requires CommandFields(c) == CommandFields(d)
    ensures c == d
  {
    var a, b := CommandFields(c), CommandFields(d);
    assert a[0] == b[0] && a[1] == b[1] && a[2] == b[2];
    assert a[3..] == RequestFields(Snapshot.RequestOf(c)) && b[3..] == RequestFields(Snapshot.RequestOf(d));
    RequestFieldsInjective(Snapshot.RequestOf(c), Snapshot.RequestOf(d));
  }

  const PLAIN := Snapshot.Codec(
    (d: string, i: string) => Pack([d, i]),
    (q: Snapshot.Request) => Pack(RequestFields(q)),
    (c: Snapshot.Command) => Pack(CommandFields(c)),
    (d: Snapshot.Device) => Pack([d.nodeId, d.fields]),
    (text: string) => true)

  lemma PairsInjective(a: string, b: string, c: string, d: string)
    requires Pack([a, b]) == Pack([c, d])
    ensures a == c && b == d
  {
    var x, y := [a, b], [c, d];
    PackInjective(x, y);
    assert x[0] == y[0] && x[1] == y[1];
  }

  lemma PackNotEmpty(fields: seq<string>)
    requires fields != []
    ensures Pack(fields) != ""
  {
    assert |Field(fields[0])| > 0;
  }

  /** A codec for snapshots with all the properties asked of it. */
  lemma SoundCodecsExist()
    ensures Snapshot.Sound(PLAIN)
    ensures forall x, y :: PLAIN.deviceJson(x) == PLAIN.deviceJson(y) ==> x == y
  {
    forall d, i ensures PLAIN.scope(d, i) != "" {
      PackNotEmpty([d, i]);
    }
    forall d, i, d', i' | PLAIN.scope(d, i) == PLAIN.scope(d', i') ensures d == d' && i == i' {
      PairsInjective(d, i, d', i');
    }
    forall x, y | PLAIN.deviceJson(x) == PLAIN.deviceJson(y) ensures x == y {
      PairsInjective(x.nodeId, x.fields, y.nodeId, y.fields);
    }
    FingerprintsSound();
    CommandsSound();
  }

  lemma FingerprintsSound()
    ensures forall q :: PLAIN.fingerprint(q) != ""
    ensures forall q, q' :: PLAIN.fingerprint(q) == PLAIN.fingerprint(q') ==> q == q'
  {
    forall q ensures PLAIN.fingerprint(q) != "" {
      PackNotEmpty(RequestFields(q));
    }
    forall q, q' | PLAIN.fingerprint(q) == PLAIN.fingerprint(q') ensures q == q' {
      PackInjective(RequestFields(q), RequestFields(q'));
      RequestFieldsInjective(q, q');
    }
  }

  lemma CommandsSound()
    ensures forall c, c' :: PLAIN.commandJson(c) == PLAIN.commandJson(c') ==> c == c'
  {
    forall c, c' | PLAIN.commandJson(c) == PLAIN.commandJson(c') ensures c == c' {
      PackInjective(CommandFields(c), CommandFields(c'));
      CommandFieldsInjective(c, c');
    }
  }

  // ---------------------------------------------------------------- release manifests

  function EntryFields(e: ReleaseIntegrity.ManifestEntry): seq<string> {
    [e.path, e.digest, Unary(e.sizeBytes)]
  }

  function EntriesText(entries: seq<ReleaseIntegrity.ManifestEntry>): seq<string> {
    seq(|entries|, i requires 0 <= i < |entries| => Pack(EntryFields(entries[i])))
  }

  function ManifestText(m: ReleaseIntegrity.Manifest): string {
    Pack([Unary(m.formatVersion), m.algorithm, m.domain, Pack(EntriesText(m.entries))])
  }

  lemma EntriesInjective(a: seq<ReleaseIntegrity.ManifestEntry>, b: seq<ReleaseIntegrity.ManifestEntry>)
    requires EntriesText(a) == EntriesText(b)
    ensures a == b
  {
    assert |a| == |EntriesText(a)| == |EntriesText(b)| == |b|;
    forall i | 0 <= i < |a| ensures a[i] == b[i] {
      assert EntriesText(a)[i] == EntriesText(b)[i];
      var x, y := EntryFields(a[i]), EntryFields(b[i]);
      PackInjective(x, y);
      assert x[0] == y[0] && x[1] == y[1] && |x[2]| == |y[2]|;
    }
  }

  lemma ManifestTextInjective(a: ReleaseIntegrity.Manifest, b: ReleaseIntegrity.Manifest)
    requires ManifestText(a) == ManifestText(b)
    ensures a == b
  {
    var x := [Unary(a.formatVersion), a.algorithm, a.domain, Pack(EntriesText(a.entries))];
    var y := [Unary(b.formatVersion), b.algorithm, b.domain, Pack(EntriesText(b.entries))];
    PackInjective(x, y);
    assert |x[0]| == |y[0]| && x[1] == y[1] && x[2] == y[2] && x[3] == y[3];
    PackInjective(EntriesText(a.entries), EntriesText(b.entries));
    EntriesInjective(a.entries, b.entries);
  }

  ghost function ParseManifest(text: string): Option<ReleaseIntegrity.Manifest> {
    if exists m :: ManifestText(m) == text then
      var m :| ManifestText(m) == text;
      Some(m)
    else None
  }

  ghost const PLAIN_RELEASE := ReleaseIntegrity.Codec(
    (b: string) => b,
    (m: ReleaseIntegrity.Manifest) => ManifestText(m),
    (text: string) => ParseManifest(text))

  /** A codec for release manifests with all the properties asked of it. */
  lemma SoundReleaseCodecsExist()
    ensures ReleaseIntegrity.Sound(PLAIN_RELEASE)
  {
    forall m ensures PLAIN_RELEASE.decode(PLAIN_RELEASE.encode(m)) == Some(m) {
      assert ManifestText(m) == PLAIN_RELEASE.encode(m);
      var parsed := ParseManifest(ManifestText(m));
      ManifestTextInjective(m, parsed.value);
    }
  }
}
