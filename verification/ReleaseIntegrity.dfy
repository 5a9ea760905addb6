/**
  The release manifest of apps/operator-cli/src/release_integrity.rs over a directory tree.
  Directories list their entries in an arbitrary order; digests and the manifest's JSON form
  are arbitrary injective encodings.
 */
module ReleaseIntegrity {
  import opened Wrappers
  import opened Sorting

  const RELEASE_INTEGRITY_MANIFEST := "integrity-manifest.json"
  const RELEASE_INTEGRITY_DOMAIN := "mobile-proxy/release-file/v1"

  type Bytes = string

  datatype Node = File(bytes: Bytes) | Dir(entries: seq<Entry>)
  datatype Entry = Entry(name: string, node: Node)

  datatype FoundFile = FoundFile(path: string, bytes: Bytes)
  datatype ManifestEntry = ManifestEntry(path: string, digest: string, sizeBytes: nat)
  datatype Manifest = Manifest(formatVersion: nat, algorithm: string, domain: string, entries: seq<ManifestEntry>)

  datatype Codec = Codec(digest: Bytes -> string, encode: Manifest -> Bytes, decode: Bytes -> Option<Manifest>)

  ghost predicate Sound(k: Codec) {
    && (forall a, b :: k.digest(a) == k.digest(b) ==> a == b)
    && (forall m :: k.decode(k.encode(m)) == Some(m))
  }

  /** File names: no separators, and no two entries of a directory alike. */
  predicate ValidName(name: string) {
    name != "" && '/' !in name && '\\' !in name
  }

  predicate ValidDir(entries: seq<Entry>) {
    && (forall i | 0 <= i < |entries| :: ValidName(entries[i].name))
    && (forall i, j | 0 <= i < j < |entries| :: entries[i].name != entries[j].name)
    && (forall i | 0 <= i < |entries| :: entries[i].node.Dir? ==> ValidDir(entries[i].node.entries))
  }

  // ---------------------------------------------------------------- collecting files

  /** The files with a prefix before every path. */
  function Below(prefix: string, files: seq<FoundFile>): seq<FoundFile> {
    seq(|files|, i requires 0 <= i < |files| => FoundFile(prefix + files[i].path, files[i].bytes))
  }

  /** All files below a directory with their paths relative to it. */
  function AllFiles(entries: seq<Entry>): seq<FoundFile> {
    if entries == [] then [] else EntryFiles(entries[0]) + AllFiles(entries[1..])
  }

  /** The files of one entry: itself, or everything below it. */
  function EntryFiles(entry: Entry): seq<FoundFile> {
    match entry.node
    case File(bytes) => [FoundFile(entry.name, bytes)]
    case Dir(sub) => Below(entry.name + "/", AllFiles(sub))
  }

  /** Everything but the manifest at the root. */
  function WithoutManifest(files: seq<FoundFile>): seq<FoundFile> {
    if files == [] then []
    else (if files[0].path == RELEASE_INTEGRITY_MANIFEST then [] else [files[0]]) + WithoutManifest(files[1..])
  }

  function ReleaseFiles(root: seq<Entry>): seq<FoundFile> {
    WithoutManifest(AllFiles(root))
  }

  /** What one directory entry contributes, under the path of its directory. */
  function Contribution(prefix: string, entry: Entry): seq<FoundFile> {
    WithoutManifest(
      match entry.node
      case File(bytes) => [FoundFile(prefix + entry.name, bytes)]
      case Dir(sub) => Below(prefix + entry.name + "/", AllFiles(sub)))
  }

  function Contributions(prefix: string, entries: seq<Entry>): seq<FoundFile> {
    WithoutManifest(Below(prefix, AllFiles(entries)))
  }

  /** The recursive walk, pushing into `out`; `prefix` is the path of the directory below the root. */
  method CollectFiles(prefix: string, entries: seq<Entry>, out: seq<FoundFile>) returns (out': seq<FoundFile>)
    ensures out' == out + Contributions(prefix, entries)
    decreases entries
  {
    out' := out;
    assert entries[0..] == entries;
    for i := 0 to |entries|
      invariant out' + Contributions(prefix, entries[i..]) == out + Contributions(prefix, entries)
    {
      FirstOf(prefix, entries, i);
      Reassociate(out', Contribution(prefix, entries[i]), Contributions(prefix, entries[i + 1..]));
      match entries[i].node
      case File(bytes) =>
        var path := prefix + entries[i].name;
        SingleFile(FoundFile(path, bytes));
        if path != RELEASE_INTEGRITY_MANIFEST {
          out' := out' + [FoundFile(path, bytes)];
        }
      case Dir(sub) =>
        out' := CollectFiles(prefix + entries[i].name + "/", sub, out');
    }
    assert entries[|entries|..] == [];
  }

  /** The walk from the root finds every file but the root manifest. */
  method CollectRelease(root: seq<Entry>) returns (files: seq<FoundFile>)
    ensures files == ReleaseFiles(root)
  {
    files := CollectFiles("", root, []);
    BelowRoot(AllFiles(root));
  }

  lemma BelowRoot(files: seq<FoundFile>)
    ensures Below("", files) == files
  {
    forall i | 0 <= i < |files| ensures Below("", files)[i] == files[i] {
      assert "" + files[i].path == files[i].path;
    }
  }

  lemma SingleFile(f: FoundFile)
    ensures WithoutManifest([f]) == if f.path == RELEASE_INTEGRITY_MANIFEST then [] else [f]
    ensures forall out: seq<FoundFile> :: out + [] == out
  {
    assert [f][1..] == [];
  }

  lemma Reassociate(a: seq<FoundFile>, b: seq<FoundFile>, c: seq<FoundFile>)
    ensures a + (b + c) == (a + b) + c
  {
  }

  lemma FirstOf(prefix: string, entries: seq<Entry>, i: nat)
    requires i < |entries|
    ensures Contributions(prefix, entries[i..])
         == Contribution(prefix, entries[i]) + Contributions(prefix, entries[i + 1..])
  {
    assert entries[i..][0] == entries[i] && entries[i..][1..] == entries[i + 1..];
    FirstEntry(prefix, entries[i..]);
  }

  lemma BelowConcat(prefix: string, a: seq<FoundFile>, b: seq<FoundFile>)
    ensures Below(prefix, a + b) == Below(prefix, a) + Below(prefix, b)
  {
  }

  lemma BelowTwice(outer: string, inner: string, files: seq<FoundFile>)
    ensures Below(outer, Below(inner, files)) == Below(outer + inner, files)
  {
    forall i | 0 <= i < |files| ensures Below(outer, Below(inner, files))[i] == Below(outer + inner, files)[i] {
      assert outer + (inner + files[i].path) == outer + inner + files[i].path;
    }
  }

  lemma {:induction false} WithoutManifestConcat(a: seq<FoundFile>, b: seq<FoundFile>)
    ensures WithoutManifest(a + b) == WithoutManifest(a) + WithoutManifest(b)
    decreases |a|
  {
    if a == [] {
      assert a + b == b;
    } else {
      assert (a + b)[1..] == a[1..] + b;
      WithoutManifestConcat(a[1..], b);
    }
  }

  lemma FirstEntry(prefix: string, entries: seq<Entry>)
    requires entries != []
    ensures var first := entries[0];
            var head := if first.node.File? then [FoundFile(prefix + first.name, first.node.bytes)]
                        else Below(prefix + first.name + "/", AllFiles(first.node.entries));
            WithoutManifest(Below(prefix, AllFiles(entries)))
              == WithoutManifest(head) + WithoutManifest(Below(prefix, AllFiles(entries[1..])))
  {
    var first := entries[0];
    var here := EntryFiles(first);
    assert AllFiles(entries) == here + AllFiles(entries[1..]);
    BelowConcat(prefix, here, AllFiles(entries[1..]));
    WithoutManifestConcat(Below(prefix, here), Below(prefix, AllFiles(entries[1..])));
    if first.node.Dir? {
      BelowTwice(prefix, first.name + "/", AllFiles(first.node.entries));
      assert prefix + (first.name + "/") == prefix + first.name + "/";
    } else {
      assert Below(prefix, here) == [FoundFile(prefix + first.name, first.node.bytes)];
    }
  }

  // ---------------------------------------------------------------- paths identify files

  /** The part of a path before its first separator. */
  function FirstComponent(path: string): string {
    if path == "" || path[0] == '/' then "" else [path[0]] + FirstComponent(path[1..])
  }

  lemma {:induction false} ComponentOf(name: string, rest: string)
    requires '/' !in name && (rest == "" || rest[0] == '/')
    ensures FirstComponent(name + rest) == name
  {
    if name == "" {
      assert name + rest == rest;
    } else {
      assert (name + rest)[1..] == name[1..] + rest;
      ComponentOf(name[1..], rest);
      assert name == [name[0]] + name[1..];
    }
  }

  ghost predicate DistinctPaths(files: seq<FoundFile>) {
    forall i, j | 0 <= i < j < |files| :: files[i].path != files[j].path
  }

  lemma {:induction false} ComponentsAreNames(entries: seq<Entry>, i: nat)
    requires ValidDir(entries) && i < |AllFiles(entries)|
    ensures exists k :: 0 <= k < |entries| && FirstComponent(AllFiles(entries)[i].path) == entries[k].name
  {
    var first := entries[0];
    var here := EntryFiles(first);
    assert AllFiles(entries) == here + AllFiles(entries[1..]);
    if i < |here| {
      HereComponent(entries, i);
    } else {
      TailIsValid(entries);
      ComponentsAreNames(entries[1..], i - |here|);
      var k :| 0 <= k < |entries[1..]|
               && FirstComponent(AllFiles(entries[1..])[i - |here|].path) == entries[1..][k].name;
      assert entries[k + 1].name == entries[1..][k].name;
    }
  }

  lemma TailIsValid(entries: seq<Entry>)
    requires ValidDir(entries) && entries != []
    ensures ValidDir(entries[1..])
  {
    var tail := entries[1..];
    forall i | 0 <= i < |tail|
      ensures ValidName(tail[i].name) && (tail[i].node.Dir? ==> ValidDir(tail[i].node.entries))
    {
      assert tail[i] == entries[i + 1];
    }
    forall i, j | 0 <= i < j < |tail| ensures tail[i].name != tail[j].name {
      assert entries[i + 1].name != entries[j + 1].name;
    }
  }

  /** Files of the first entry start with its name. */
  lemma {:induction false} HereComponent(entries: seq<Entry>, i: nat)
    requires ValidDir(entries) && entries != []
    requires i < |EntryFiles(entries[0])|
    ensures i < |AllFiles(entries)| && FirstComponent(AllFiles(entries)[i].path) == entries[0].name
  {
    var first := entries[0];
    assert ValidName(first.name);
    if first.node.File? {
      ComponentOf(first.name, "");
      assert first.name + "" == first.name;
    } else {
      var sub := AllFiles(first.node.entries);
      ComponentOf(first.name, "/" + sub[i].path);
      assert first.name + "/" + sub[i].path == first.name + ("/" + sub[i].path);
    }
  }

  lemma BelowDistinct(prefix: string, files: seq<FoundFile>)
    requires DistinctPaths(files)
    ensures DistinctPaths(Below(prefix, files))
  {
    var u := Below(prefix, files);
    forall i, j | 0 <= i < j < |u| ensures u[i].path != u[j].path {
      assert u[i].path[|prefix|..] == files[i].path;
      assert u[j].path[|prefix|..] == files[j].path;
    }
  }

  /** No two files of a valid tree share a path. */
  lemma {:induction false} PathsAreDistinct(entries: seq<Entry>)
    requires ValidDir(entries)
    ensures DistinctPaths(AllFiles(entries))
    decreases entries
  {
    if entries != [] {
      var first := entries[0];
      var here := EntryFiles(first);
      var rest := AllFiles(entries[1..]);
      assert AllFiles(entries) == here + rest;
      TailIsValid(entries);
      PathsAreDistinct(entries[1..]);
      if first.node.Dir? {
        PathsAreDistinct(first.node.entries);
        BelowDistinct(first.name + "/", AllFiles(first.node.entries));
      }
      forall i, j | 0 <= i < |here| && 0 <= j < |rest| ensures here[i].path != rest[j].path {
        HereComponent(entries, i);
        ComponentsAreNames(entries[1..], j);
        var k :| 0 <= k < |entries[1..]| && FirstComponent(rest[j].path) == entries[1..][k].name;
        assert entries[k + 1].name != entries[0].name;
      }
    }
  }

  lemma {:induction false} WithoutManifestFacts(files: seq<FoundFile>)
    requires DistinctPaths(files)
    ensures DistinctPaths(WithoutManifest(files))
    ensures forall f :: f in WithoutManifest(files) <==> f in files && f.path != RELEASE_INTEGRITY_MANIFEST
  {
    if files != [] {
      assert files == [files[0]] + files[1..];
      WithoutManifestFacts(files[1..]);
      var rest := WithoutManifest(files[1..]);
      forall j | 0 <= j < |rest| ensures rest[j].path != files[0].path {
        assert rest[j] in files[1..];
        var k :| 0 <= k < |files[1..]| && files[1..][k] == rest[j];
        assert files[k + 1] == rest[j];
      }
    }
  }

  // ---------------------------------------------------------------- the manifest

  predicate PathLe(a: FoundFile, b: FoundFile) {
    StringLe(a.path, b.path)
  }

  function Describe(k: Codec, f: FoundFile): ManifestEntry {
    ManifestEntry(f.path, k.digest(f.bytes), |f.bytes|)
  }

  function IntegrityEntries(k: Codec, root: seq<Entry>): seq<ManifestEntry> {
    var files := Sort(ReleaseFiles(root), PathLe);
    seq(|files|, i requires 0 <= i < |files| => Describe(k, files[i]))
  }

  function NewManifest(k: Codec, root: seq<Entry>): Manifest {
    Manifest(1, "blake3-256", RELEASE_INTEGRITY_DOMAIN, IntegrityEntries(k, root))
  }

  function FindEntry(entries: seq<Entry>, name: string): Option<Node> {
    if entries == [] then None
    else if entries[0].name == name then Some(entries[0].node)
    else FindEntry(entries[1..], name)
  }

  // ---------------------------------------------------------------- looking files up

  /** The file found by walking down the names of a path. */
  function Lookup(entries: seq<Entry>, names: seq<string>): Option<Bytes>
    decreases |names|
  {
    if names == [] then None
    else
      match FindEntry(entries, names[0])
      case None => None
      case Some(File(bytes)) => if |names| == 1 then Some(bytes) else None
      case Some(Dir(sub)) => Lookup(sub, names[1..])
  }

  function Join(names: seq<string>): string {
    if names == [] then "" else if |names| == 1 then names[0] else names[0] + "/" + Join(names[1..])
  }

  lemma {:induction false} FoundEntry(entries: seq<Entry>, k: nat)
    requires ValidDir(entries) && k < |entries|
    ensures FindEntry(entries, entries[k].name) == Some(entries[k].node)
  {
    if k > 0 {
      assert entries[0].name != entries[k].name;
      TailIsValid(entries);
      FoundEntry(entries[1..], k - 1);
    }
  }

  lemma {:induction false} EntryOf(entries: seq<Entry>, name: string) returns (k: nat)
    requires FindEntry(entries, name).Some?
    ensures k < |entries| && entries[k].name == name && entries[k].node == FindEntry(entries, name).value
  {
    if entries[0].name == name {
      k := 0;
    } else {
      k := EntryOf(entries[1..], name);
      k := k + 1;
    }
  }

  lemma {:induction false} FilesOfEntry(entries: seq<Entry>, f: FoundFile) returns (k: nat)
    requires f in AllFiles(entries)
    ensures k < |entries| && f in EntryFiles(entries[k])
  {
    if f in EntryFiles(entries[0]) {
      k := 0;
    } else {
      assert f in AllFiles(entries[1..]);
      k := FilesOfEntry(entries[1..], f);
      k := k + 1;
    }
  }

  lemma {:induction false} EntryIsCollected(entries: seq<Entry>, k: nat, f: FoundFile)
    requires k < |entries| && f in EntryFiles(entries[k])
    ensures f in AllFiles(entries)
  {
    if k > 0 {
      EntryIsCollected(entries[1..], k - 1, f);
    }
  }

  /** Every file that is collected is the one its path leads to. */
  lemma {:induction false} CollectedIsFound(entries: seq<Entry>, f: FoundFile) returns (names: seq<string>)
    requires ValidDir(entries) && f in AllFiles(entries)
    ensures names != [] && Lookup(entries, names) == Some(f.bytes) && Join(names) == f.path
    decreases entries
  {
    var k := FilesOfEntry(entries, f);
    FoundEntry(entries, k);
    match entries[k].node
    case File(_) => names := [entries[k].name];
    case Dir(sub) =>
      var i :| 0 <= i < |AllFiles(sub)| && f == Below(entries[k].name + "/", AllFiles(sub))[i];
      var g := AllFiles(sub)[i];
      var rest := CollectedIsFound(sub, g);
      names := [entries[k].name] + rest;
      assert names[1..] == rest;
      assert f.path == entries[k].name + "/" + g.path;
  }

  /** Every file a path leads to is collected, at any depth. */
  lemma {:induction false} FoundIsCollected(entries: seq<Entry>, names: seq<string>)
    requires Lookup(entries, names).Some?
    ensures FoundFile(Join(names), Lookup(entries, names).value) in AllFiles(entries)
    decreases |names|
  {
    var k := EntryOf(entries, names[0]);
    var f := FoundFile(Join(names), Lookup(entries, names).value);
    match entries[k].node
    case File(_) => EntryIsCollected(entries, k, f);
    case Dir(sub) =>
      FoundIsCollected(sub, names[1..]);
      var g := FoundFile(Join(names[1..]), f.bytes);
      var i :| 0 <= i < |AllFiles(sub)| && AllFiles(sub)[i] == g;
      assert |names| > 1;
      assert Below(entries[k].name + "/", AllFiles(sub))[i] == f;
      EntryIsCollected(entries, k, f);
  }

  /** The released files are exactly those some path leads to, but for the manifest at the root. */
  lemma ReleasedIff(root: seq<Entry>, f: FoundFile)
    requires ValidDir(root)
    ensures f in ReleaseFiles(root) <==>
      && f.path != "integrity-manifest.json"
      && exists names :: names != [] && Lookup(root, names) == Some(f.bytes) && Join(names) == f.path
  {
    PathsAreDistinct(root);
    WithoutManifestFacts(AllFiles(root));
    if f in AllFiles(root) {
      var names := CollectedIsFound(root, f);
    }
    if names :| names != [] && Lookup(root, names) == Some(f.bytes) && Join(names) == f.path {
      FoundIsCollected(root, names);
    }
  }

  /** Writing the file at the root, over an earlier one if present; a directory in its place is an error. */
  function PutManifest(entries: seq<Entry>, bytes: Bytes): Result<seq<Entry>, ()> {
    if entries == [] then Ok([Entry(RELEASE_INTEGRITY_MANIFEST, File(bytes))])
    else if entries[0].name == RELEASE_INTEGRITY_MANIFEST then
      if entries[0].node.Dir? then Err(()) else Ok([Entry(RELEASE_INTEGRITY_MANIFEST, File(bytes))] + entries[1..])
    else
      var rest :- PutManifest(entries[1..], bytes);
      Ok([entries[0]] + rest)
  }

  function WriteManifest(k: Codec, root: seq<Entry>): Result<seq<Entry>, ()> {
    PutManifest(root, k.encode(NewManifest(k, root)))
  }

  predicate Verifies(k: Codec, root: seq<Entry>) {
    var found := FindEntry(root, RELEASE_INTEGRITY_MANIFEST);
    && found.Some? && found.value.File?
    && var parsed := k.decode(found.value.bytes);
       && parsed.Some?
       && parsed.value.formatVersion == 1
       && parsed.value.algorithm == "blake3-256"
       && parsed.value.domain == RELEASE_INTEGRITY_DOMAIN
       && parsed.value.entries == IntegrityEntries(k, root)
  }

  /** The released content: which path holds which bytes. */
  ghost predicate SameContent(a: seq<Entry>, b: seq<Entry>) {
    forall f :: f in ReleaseFiles(a) <==> f in ReleaseFiles(b)
  }

  lemma ReleasePathsDistinct(root: seq<Entry>)
    requires ValidDir(root)
    ensures DistinctPaths(ReleaseFiles(root))
  {
    PathsAreDistinct(root);
    WithoutManifestFacts(AllFiles(root));
  }

  lemma SameContentSameEntries(k: Codec, a: seq<Entry>, b: seq<Entry>)
    requires ValidDir(a) && ValidDir(b) && SameContent(a, b)
    ensures IntegrityEntries(k, a) == IntegrityEntries(k, b)
  {
    var fa, fb := ReleaseFiles(a), ReleaseFiles(b);
    ReleasePathsDistinct(a);
    ReleasePathsDistinct(b);
    assert NoRepeats(fa) && NoRepeats(fb);
    SameMembersSameMultiset(fa, fb);
    SortMultiset(fa, PathLe);
    SortMultiset(fb, PathLe);
    PathLeIsPreorder();
    SortSorts(fa, PathLe);
    SortSorts(fb, PathLe);
    SortMembers(fa, PathLe);
    SortedByPathIsAntisymmetric(fa, Sort(fa, PathLe));
    SortedUnique(Sort(fa, PathLe), Sort(fb, PathLe), PathLe);
  }

  lemma PathLeIsPreorder()
    ensures TotalPreorder(PathLe)
  {
    forall a, b ensures PathLe(a, b) || PathLe(b, a) {
      StringLeTotal(a.path, b.path);
    }
    forall a, b, c | PathLe(a, b) && PathLe(b, c) ensures PathLe(a, c) {
      StringLeTransitive(a.path, b.path, c.path);
    }
  }

  lemma SortedByPathIsAntisymmetric(files: seq<FoundFile>, sorted: seq<FoundFile>)
    requires DistinctPaths(files) && forall f :: f in sorted <==> f in files
    ensures AntisymmetricOn(sorted, PathLe)
  {
    forall x, y | x in sorted && y in sorted && PathLe(x, y) && PathLe(y, x) ensures x == y {
      StringLeAntisymmetric(x.path, y.path);
      var i :| 0 <= i < |files| && files[i] == x;
      var j :| 0 <= j < |files| && files[j] == y;
    }
  }

  lemma SameEntriesSameContent(k: Codec, a: seq<Entry>, b: seq<Entry>)
    requires Sound(k) && IntegrityEntries(k, a) == IntegrityEntries(k, b)
    ensures SameContent(a, b)
  {
    var sa, sb := Sort(ReleaseFiles(a), PathLe), Sort(ReleaseFiles(b), PathLe);
    assert |sa| == |IntegrityEntries(k, a)| == |IntegrityEntries(k, b)| == |sb|;
    forall i | 0 <= i < |sa| ensures sa[i] == sb[i] {
      assert IntegrityEntries(k, a)[i] == Describe(k, sa[i]);
      assert IntegrityEntries(k, b)[i] == Describe(k, sb[i]);
    }
    assert sa == sb;
    SortMembers(ReleaseFiles(a), PathLe);
    SortMembers(ReleaseFiles(b), PathLe);
  }

  /** The entries of a manifest are the released files, by ascending path, each with its digest and its size. */
  lemma EntriesDescribeFiles(k: Codec, root: seq<Entry>)
    requires ValidDir(root)
    ensures var entries := IntegrityEntries(k, root);
            && (forall e :: e in entries <==>
                  exists f :: f in ReleaseFiles(root) && e.path == f.path
                              && e.digest == k.digest(f.bytes) && e.sizeBytes == |f.bytes|)
            && (forall i, j | 0 <= i < j < |entries| ::
                  StringLe(entries[i].path, entries[j].path) && entries[i].path != entries[j].path)
  {
    var files := Sort(ReleaseFiles(root), PathLe);
    var entries := IntegrityEntries(k, root);
    SortMembers(ReleaseFiles(root), PathLe);
    PathLeIsPreorder();
    SortSorts(ReleaseFiles(root), PathLe);
    ReleasePathsDistinct(root);
    SortKeepsSeparated(ReleaseFiles(root), PathLe, SamePath);
    forall e | e in entries
      ensures exists f :: f in ReleaseFiles(root) && e.path == f.path
                          && e.digest == k.digest(f.bytes) && e.sizeBytes == |f.bytes|
    {
      var i :| 0 <= i < |entries| && entries[i] == e;
      assert files[i] in files;
    }
    forall f, e: ManifestEntry | f in ReleaseFiles(root) && e.path == f.path
                                 && e.digest == k.digest(f.bytes) && e.sizeBytes == |f.bytes|
      ensures e in entries
    {
      assert f in files;
      var i :| 0 <= i < |files| && files[i] == f;
      assert entries[i] == e;
    }
    forall i, j | 0 <= i < j < |entries|
      ensures StringLe(entries[i].path, entries[j].path) && entries[i].path != entries[j].path
    {
      assert PathLe(files[i], files[j]) && !SamePath(files[i], files[j]);
    }
  }

  predicate SamePath(a: FoundFile, b: FoundFile) {
    a.path == b.path
  }

  /** Verification asks for a file at the root that decodes to exactly the manifest the tree would be given now. */
  lemma VerifiesIff(k: Codec, root: seq<Entry>)
    ensures Verifies(k, root) <==>
      exists bytes ::
        && FindEntry(root, "integrity-manifest.json") == Some(File(bytes))
        && k.decode(bytes)
             == Some(Manifest(1, "blake3-256", "mobile-proxy/release-file/v1", IntegrityEntries(k, root)))
  {
  }

  lemma {:induction false} PutFacts(entries: seq<Entry>, bytes: Bytes)
    requires PutManifest(entries, bytes).Ok?
    ensures var put := PutManifest(entries, bytes).value;
            && FindEntry(put, RELEASE_INTEGRITY_MANIFEST) == Some(File(bytes))
            && ReleaseFiles(put) == ReleaseFiles(entries)
  {
    var put := PutManifest(entries, bytes).value;
    var file := FoundFile(RELEASE_INTEGRITY_MANIFEST, bytes);
    if entries == [] {
      assert put[1..] == [];
      assert AllFiles(put) == [file] + AllFiles([]);
      assert WithoutManifest([file]) == [];
    } else if entries[0].name == RELEASE_INTEGRITY_MANIFEST {
      assert put[1..] == entries[1..];
      assert AllFiles(put) == [file] + AllFiles(entries[1..]);
      assert (AllFiles(put))[1..] == AllFiles(entries[1..]);
      assert AllFiles(entries)[1..] == AllFiles(entries[1..]);
    } else {
      PutFacts(entries[1..], bytes);
      assert put[1..] == PutManifest(entries[1..], bytes).value;
      var here := EntryFiles(entries[0]);
      assert AllFiles(put) == here + AllFiles(put[1..]);
      assert AllFiles(entries) == here + AllFiles(entries[1..]);
      WithoutManifestConcat(here, AllFiles(put[1..]));
      WithoutManifestConcat(here, AllFiles(entries[1..]));
    }
  }

  /**
    After a manifest has been written, the tree verifies; and any valid tree that carries the
    same manifest bytes verifies exactly when it holds the same files with the same bytes,
    however its directories are enumerated.
   */
  lemma VerifyAcceptsExactlyTheRelease(k: Codec, root: seq<Entry>, later: seq<Entry>)
    requires Sound(k) && ValidDir(root) && ValidDir(later)
    requires WriteManifest(k, root).Ok?
    ensures Verifies(k, WriteManifest(k, root).value)
    ensures FindEntry(later, RELEASE_INTEGRITY_MANIFEST)
              == FindEntry(WriteManifest(k, root).value, RELEASE_INTEGRITY_MANIFEST) ==>
              (Verifies(k, later) <==> SameContent(later, root))
  {
    var bytes := k.encode(NewManifest(k, root));
    PutFacts(root, bytes);
    var written := WriteManifest(k, root).value;
    assert IntegrityEntries(k, written) == IntegrityEntries(k, root);
    if SameContent(later, root) {
      SameContentSameEntries(k, later, root);
    }
    if IntegrityEntries(k, later) == IntegrityEntries(k, root) {
      SameEntriesSameContent(k, later, root);
    }
  }
}
