/**
  manifest.go and manifest_json.go: the whole manifest. Normalisation runs when a manifest is
  built, exported, parsed and applied, so the checksum over the encoded manifest only works if
  the result is a true normal form. The encoder and the digest are parameters.
 */
module Manifest {
  import opened Wrappers
  import opened Strings
  import opened Sorting
  import opened Paths
  import opened Operations
  import opened NormalLists
  import opened ManifestEntries
  import PlanApply

  const VERSION_MIN := 1
  const VERSION_MAX := 1
  const SHA256 := "sha256"

  /** ScenarioManifest, with its generator and integrity records spread out. */
  datatype Scenario = Scenario(
    version: int, seed: int, runMode: PlanApply.RunMode, planEntryLimit: int,
    settings: seq<Setting>,
    entries: seq<ManifestEntry>,
    operations: seq<RawOperation>,
    capabilities: seq<string>,
    algorithm: string, checksum: string)

  // ---------------------------------------------------------------- lists of entries and operations

  ghost function NormalEntries(entries: seq<ManifestEntry>): Option<seq<ManifestEntry>> {
    if entries == [] then Some([])
    else
      var front, last := NormalEntries(entries[..|entries| - 1]), NormalEntry(entries[|entries| - 1]);
      if front.None? || last.None? then None else Some(front.value + [last.value])
  }

  function NormalOperations(ops: seq<RawOperation>): Option<seq<RawOperation>> {
    if ops == [] then Some([])
    else
      var front, last := NormalOperations(ops[..|ops| - 1]), NormalizeOperation(ops[|ops| - 1]);
      if front.None? || last.Err? then None else Some(front.value + [RenderOperation(last.value)])
  }

  lemma {:induction false} EntriesStop(entries: seq<ManifestEntry>, k: nat)
    requires k <= |entries| && NormalEntries(entries[..k]).None?
    ensures NormalEntries(entries).None?
    decreases |entries| - k
  {
    hide NormalEntry;
    if k == |entries| {
      assert entries[..k] == entries;
    } else {
      assert entries[..k + 1][..k] == entries[..k];
      EntriesStop(entries, k + 1);
    }
  }

  lemma {:induction false} OperationsStop(ops: seq<RawOperation>, k: nat)
    requires k <= |ops| && NormalOperations(ops[..k]).None?
    ensures NormalOperations(ops).None?
    decreases |ops| - k
  {
    hide NormalizeOperation;
    if k == |ops| {
      assert ops[..k] == ops;
    } else {
      assert ops[..k + 1][..k] == ops[..k];
      OperationsStop(ops, k + 1);
    }
  }

  method NormalizeEntries(entries: seq<ManifestEntry>) returns (r: Option<seq<ManifestEntry>>)
    ensures r == NormalEntries(entries)
  {
    hide NormalEntry;
    var normalized: seq<ManifestEntry> := [];
    for i := 0 to |entries|
      invariant NormalEntries(entries[..i]) == Some(normalized)
    {
      assert entries[..i + 1][..i] == entries[..i];
      var entry := NormalizeEntry(entries[i]);
      if entry.None? {
        EntriesStop(entries, i + 1);
        return None;
      }
      normalized := normalized + [entry.value];
    }
    assert entries[..|entries|] == entries;
    return Some(normalized);
  }

  method NormalizeOperations(ops: seq<RawOperation>) returns (r: Option<seq<RawOperation>>)
    ensures r == NormalOperations(ops)
  {
    hide NormalizeOperation, RenderOperation;
    var normalized: seq<RawOperation> := [];
    for i := 0 to |ops|
      invariant NormalOperations(ops[..i]) == Some(normalized)
    {
      assert ops[..i + 1][..i] == ops[..i];
      var op := NormalizeOperation(ops[i]);
      if op.Err? {
        OperationsStop(ops, i + 1);
        return None;
      }
      normalized := normalized + [RenderOperation(op.value)];
    }
    assert ops[..|ops|] == ops;
    return Some(normalized);
  }

  lemma {:induction false} EntriesIdempotent(entries: seq<ManifestEntry>)
    requires NormalEntries(entries).Some?
    ensures NormalEntries(NormalEntries(entries).value) == NormalEntries(entries)
    ensures |NormalEntries(entries).value| == |entries|
  {
    hide NormalEntry;
    if entries != [] {
      EntriesIdempotent(entries[..|entries| - 1]);
      EntryIdempotent(entries[|entries| - 1]);
      var n, front := NormalEntries(entries).value, NormalEntries(entries[..|entries| - 1]).value;
      assert n[..|n| - 1] == front;
    }
  }

  lemma {:induction false} OperationsIdempotent(ops: seq<RawOperation>)
    requires NormalOperations(ops).Some?
    ensures NormalOperations(NormalOperations(ops).value) == NormalOperations(ops)
  {
    hide NormalizeOperation, RenderOperation;
    if ops != [] {
      OperationsIdempotent(ops[..|ops| - 1]);
      NormalizeIdempotent(ops[|ops| - 1]);
      var n, front := NormalOperations(ops).value, NormalOperations(ops[..|ops| - 1]).value;
      assert n[..|n| - 1] == front;
    }
  }

  // ---------------------------------------------------------------- structure

  /** gopath.Clean(gopath.Dir(path)) */
  function ParentString(path: string): string {
    Render(Dir(path))
  }

  predicate TypedAt(entries: seq<ManifestEntry>, path: string, kinds: set<EntryType>) {
    exists j :: 0 <= j < |entries| && entries[j].path == path && entries[j].kind in kinds
  }

  predicate PathAt(entries: seq<ManifestEntry>, path: string) {
    exists j :: 0 <= j < |entries| && entries[j].path == path
  }

  /** The i-th entry is new, and its parent is a directory listed up to there. */
  predicate Placed(entries: seq<ManifestEntry>, i: nat)
    requires i < |entries|
  {
    && !PathAt(entries[..i], entries[i].path)
    && (entries[i].path != ROOT ==> TypedAt(entries[..i + 1], ParentString(entries[i].path), {DirType}))
  }

  predicate LinksResolve(entries: seq<ManifestEntry>, e: ManifestEntry) {
    && (e.kind.HardlinkType? ==> TypedAt(entries, e.sourcePath, {FileType, HardlinkType}))
    && (e.kind.SymlinkType? && e.targetType.ManifestPath? ==> PathAt(entries, e.linkTarget))
  }

  /** A root first, no path twice, parents before children, link targets somewhere in the manifest. */
  predicate Structured(entries: seq<ManifestEntry>) {
    && entries != [] && entries[0].kind.DirType? && entries[0].path == ROOT
    && (forall i :: 0 <= i < |entries| ==> Placed(entries, i))
    && (forall i :: 0 <= i < |entries| ==> LinksResolve(entries, entries[i]))
  }

  /** What the path map holds after the first entries. */
  ghost predicate PathsHeld(pathSet: map<string, EntryType>, entries: seq<ManifestEntry>) {
    && (forall path :: path in pathSet <==> PathAt(entries, path))
    && (forall j :: 0 <= j < |entries| ==> entries[j].path in pathSet && pathSet[entries[j].path] == entries[j].kind)
  }

  lemma HeldTypes(pathSet: map<string, EntryType>, entries: seq<ManifestEntry>, path: string, kinds: set<EntryType>)
    requires PathsHeld(pathSet, entries)
    ensures TypedAt(entries, path, kinds) <==> path in pathSet && pathSet[path] in kinds
  {
    if path in pathSet {
      var j :| 0 <= j < |entries| && entries[j].path == path;
      assert entries[j].kind == pathSet[path];
    }
  }

  lemma HoldOne(pathSet: map<string, EntryType>, entries: seq<ManifestEntry>, e: ManifestEntry)
    requires PathsHeld(pathSet, entries) && e.path !in pathSet
    ensures PathsHeld(pathSet[e.path := e.kind], entries + [e])
  {
    var all := entries + [e];
    forall path ensures path in pathSet[e.path := e.kind] <==> PathAt(all, path) {
      if PathAt(entries, path) {
        var j :| 0 <= j < |entries| && entries[j].path == path;
        assert all[j].path == path;
      }
      assert all[|entries|].path == e.path;
    }
    forall j | 0 <= j < |entries| ensures entries[j].path != e.path {
      assert PathAt(entries, entries[j].path);
    }
  }

  /** The first loop: duplicates and parents, with the path map it fills. */
  method CheckPaths(entries: seq<ManifestEntry>) returns (ok: bool, pathSet: map<string, EntryType>)
    ensures ok <==> forall i :: 0 <= i < |entries| ==> Placed(entries, i)
    ensures ok ==> PathsHeld(pathSet, entries)
  {
    pathSet := map[];
    for i := 0 to |entries|
      invariant PathsHeld(pathSet, entries[..i])
      invariant forall j :: 0 <= j < i ==> Placed(entries, j)
    {
      hide PathsHeld, PathAt, TypedAt, ParentString;
      var entry := entries[i];
      assert (entry.path in pathSet) == PathAt(entries[..i], entry.path) by { HeldPath(pathSet, entries[..i], entry.path); }
      if entry.path in pathSet {
        assert !Placed(entries, i);
        return false, pathSet;
      }
      assert entries[..i + 1] == entries[..i] + [entry];
      HoldOne(pathSet, entries[..i], entry);
      pathSet := pathSet[entry.path := entry.kind];
      if entry.path == ROOT { continue; }
      var parentPath := ParentString(entry.path);
      HeldTypes(pathSet, entries[..i + 1], parentPath, {DirType});
      if parentPath !in pathSet {
        assert !Placed(entries, i);
        return false, pathSet;
      }
      if pathSet[parentPath] != DirType {
        assert !Placed(entries, i);
        return false, pathSet;
      }
    }
    assert entries[..|entries|] == entries;
    ok := true;
  }

  lemma HeldPath(pathSet: map<string, EntryType>, entries: seq<ManifestEntry>, path: string)
    requires PathsHeld(pathSet, entries)
    ensures path in pathSet <==> PathAt(entries, path)
  {
  }

  /** The loops over links; the source runs one for hard links and one for symbolic links. */
  method CheckLinks(entries: seq<ManifestEntry>, pathSet: map<string, EntryType>) returns (ok: bool)
    requires PathsHeld(pathSet, entries)
    ensures ok <==> forall i :: 0 <= i < |entries| ==> LinksResolve(entries, entries[i])
  {
    hide PathsHeld, PathAt, TypedAt;
    for i := 0 to |entries|
      invariant forall j :: 0 <= j < i && entries[j].kind.HardlinkType? ==> LinksResolve(entries, entries[j])
    {
      var entry := entries[i];
      if !entry.kind.HardlinkType? { continue; }
      HeldTypes(pathSet, entries, entry.sourcePath, {FileType, HardlinkType});
      if entry.sourcePath !in pathSet { return false; }
      if pathSet[entry.sourcePath] != FileType && pathSet[entry.sourcePath] != HardlinkType { return false; }
    }
    for i := 0 to |entries|
      invariant forall j :: 0 <= j < i && entries[j].kind.SymlinkType? ==> LinksResolve(entries, entries[j])
    {
      var entry := entries[i];
      if !entry.kind.SymlinkType? { continue; }
      if !entry.targetType.ManifestPath? { continue; }
      HeldPath(pathSet, entries, entry.linkTarget);
      if entry.linkTarget !in pathSet { return false; }
    }
    return true;
  }

  method CheckStructure(entries: seq<ManifestEntry>) returns (ok: bool)
    ensures ok <==> Structured(entries)
  {
    hide Placed, LinksResolve, PathsHeld;
    if |entries| == 0 { return false; }
    if !entries[0].kind.DirType? || entries[0].path != ROOT { return false; }
    var placed, pathSet := CheckPaths(entries);
    if !placed { return false; }
    ok := CheckLinks(entries, pathSet);
  }

  // ---------------------------------------------------------------- capabilities a payload needs

  function EntryNeeds(e: ManifestEntry): set<string> {
    (if e.kind.SpecialFileType? then {"linux-special-files"} else {})
    + if e.metadata.None? then {} else
        (if e.metadata.value.ownership.Some? then {"linux-ownership-metadata"} else {})
        + (if e.metadata.value.timestamps.Some? then {"linux-timestamp-metadata"} else {})
        + (if e.metadata.value.xattrs != [] then {"linux-xattr-metadata"} else {})
        + (if e.metadata.value.acl != [] then {"linux-acl-metadata"} else {})
  }

  function OperationNeeds(op: RawOperation): set<string> {
    if op.SetXAttr? || op.RemoveXAttr? then {"operation-xattr"} else if op.Chown? then {"operation-chown"} else {}
  }

  function Needs(entries: seq<ManifestEntry>, ops: seq<RawOperation>): set<string> {
    (set e, c | e in entries && c in EntryNeeds(e) :: c) + (set op, c | op in ops && c in OperationNeeds(op) :: c)
  }

  /** What in an entry asks for a capability. */
  predicate EntryAsks(c: string, e: ManifestEntry) {
    || (c == "linux-special-files" && e.kind.SpecialFileType?)
    || (e.metadata.Some? && (
        || (c == "linux-ownership-metadata" && e.metadata.value.ownership.Some?)
        || (c == "linux-timestamp-metadata" && e.metadata.value.timestamps.Some?)
        || (c == "linux-xattr-metadata" && e.metadata.value.xattrs != [])
        || (c == "linux-acl-metadata" && e.metadata.value.acl != [])))
  }

  predicate OperationAsks(c: string, op: RawOperation) {
    (c == "operation-xattr" && (op.SetXAttr? || op.RemoveXAttr?)) || (c == "operation-chown" && op.Chown?)
  }

  /** Some entry or operation of the payload asks for the capability. */
  predicate Asked(c: string, entries: seq<ManifestEntry>, ops: seq<RawOperation>) {
    (exists e :: e in entries && EntryAsks(c, e)) || (exists op :: op in ops && OperationAsks(c, op))
  }

  lemma NeedsAreAsked(entries: seq<ManifestEntry>, ops: seq<RawOperation>)
    ensures forall c :: c in Needs(entries, ops) <==> Asked(c, entries, ops)
  {
    assert forall e, c :: c in EntryNeeds(e) <==> EntryAsks(c, e);
    assert forall op, c :: c in OperationNeeds(op) <==> OperationAsks(c, op);
    hide EntryNeeds, OperationNeeds, EntryAsks, OperationAsks;
  }

  /** deriveScenarioManifestCapabilities: the loops, and the sorted list. */
  method DeriveCapabilities(entries: seq<ManifestEntry>, ops: seq<RawOperation>) returns (capabilities: seq<string>)
    ensures forall c :: c in capabilities <==> c in Needs(entries, ops)
    ensures forall c :: c in capabilities <==> Asked(c, entries, ops)
    ensures Distinct(capabilities) && Sorted(Leq, capabilities)
  {
    NeedsAreAsked(entries, ops);
    hide EntryNeeds, OperationNeeds, Asked;
    var needed: set<string> := {};
    for i := 0 to |entries|
      invariant needed == set e, c | e in entries[..i] && c in EntryNeeds(e) :: c
    {
      assert entries[..i + 1] == entries[..i] + [entries[i]];
      needed := needed + EntryNeeds(entries[i]);
    }
    assert entries[..|entries|] == entries;
    ghost var byEntries := needed;
    for i := 0 to |ops|
      invariant needed == byEntries + set op, c | op in ops[..i] && c in OperationNeeds(op) :: c
    {
      assert ops[..i + 1] == ops[..i] + [ops[i]];
      needed := needed + OperationNeeds(ops[i]);
    }
    assert ops[..|ops|] == ops;
    capabilities := ListOf(needed);
  }

  /** A set read out in any order and sorted. */
  method ListOf(needed: set<string>) returns (list: seq<string>)
    ensures (forall c :: c in list <==> c in needed) && Distinct(list) && Sorted(Leq, list)
  {
    list := [];
    var unread := needed;
    while unread != {}
      invariant unread <= needed && Distinct(list) && forall c :: c in list <==> c in needed && c !in unread
      decreases |unread|
    {
      var c :| c in unread;
      assert forall x :: x in list + [c] <==> x in list || x == c;
      list := list + [c];
      unread := unread - {c};
    }
    SortedStrings(list);
    list := Sort(Leq, list);
  }

  // ---------------------------------------------------------------- the manifest

  predicate HeaderOk(m: Scenario) {
    VERSION_MIN <= m.version <= VERSION_MAX && !m.runMode.UnknownMode? && m.planEntryLimit > 0
  }

  /** Every capability the payload needs is declared. */
  predicate Declared(entries: seq<ManifestEntry>, ops: seq<RawOperation>, capabilities: seq<string>) {
    forall c :: c in Needs(entries, ops) ==> c in capabilities
  }

  /** normalizeScenarioManifest */
  ghost function Normal(m: Scenario): Option<Scenario> {
    var settings, capabilities, entries, ops :=
      NormalSettings(m.settings), NormalCapabilities(m.capabilities), NormalEntries(m.entries), NormalOperations(m.operations);
    if !HeaderOk(m) || settings.None? || capabilities.None? || entries.None? || ops.None? then None
    else if !Structured(entries.value) || !Declared(entries.value, ops.value, capabilities.value) then None
    else Some(Scenario(m.version, m.seed, m.runMode, m.planEntryLimit, settings.value, entries.value, ops.value, capabilities.value,
                       Lower(Trim(m.algorithm)), Lower(Trim(m.checksum))))
  }

  method NormalizeManifest(m: Scenario) returns (r: Option<Scenario>)
    ensures r == Normal(m)
  {
    hide NormalSettings, NormalCapabilities, NormalEntries, NormalOperations, Structured, Needs, Lower, Trim;
    if m.version < VERSION_MIN || m.version > VERSION_MAX { return None; }
    if m.runMode.UnknownMode? { return None; }
    if m.planEntryLimit <= 0 { return None; }
    var settings := NormalizeSettings(m.settings);
    if settings.None? { return None; }
    var capabilities := NormalizeCapabilities(m.capabilities);
    if capabilities.None? { return None; }
    var entries := NormalizeEntries(m.entries);
    if entries.None? { return None; }
    var structured := CheckStructure(entries.value);
    if !structured { return None; }
    var ops := NormalizeOperations(m.operations);
    if ops.None? { return None; }
    var required := DeriveCapabilities(entries.value, ops.value);
    var missing: set<string> := set c | c in required;
    for i := 0 to |capabilities.value|
      invariant missing == set c | c in required && c !in capabilities.value[..i]
    {
      assert capabilities.value[..i + 1] == capabilities.value[..i] + [capabilities.value[i]];
      missing := missing - {capabilities.value[i]};
    }
    assert capabilities.value[..|capabilities.value|] == capabilities.value;
    if missing != {} {
      var c :| c in missing;
      assert c in Needs(entries.value, ops.value);
      return None;
    }
    assert Declared(entries.value, ops.value, capabilities.value) by {
      forall c | c in Needs(entries.value, ops.value) ensures c in capabilities.value {
        assert c in required && c !in missing;
      }
    }
    return Some(Scenario(m.version, m.seed, m.runMode, m.planEntryLimit, settings.value, entries.value, ops.value, capabilities.value,
                         Lower(Trim(m.algorithm)), Lower(Trim(m.checksum))));
  }

  /** Normalising is idempotent: what export, parse and apply see is one manifest. */
  lemma NormalIdempotent(m: Scenario)
    requires Normal(m).Some?
    ensures Normal(Normal(m).value) == Normal(m)
  {
    SettingsIdempotent(m.settings);
    CapabilitiesIdempotent(m.capabilities);
    EntriesIdempotent(m.entries);
    OperationsIdempotent(m.operations);
    LowerTrimIdempotent(m.algorithm);
    LowerTrimIdempotent(m.checksum);
    hide NormalSettings, NormalCapabilities, NormalEntries, NormalOperations, Structured, Declared, Lower, Trim;
  }

  // ---------------------------------------------------------------- order does not matter

  ghost predicate SameEntries(a: seq<ManifestEntry>, b: seq<ManifestEntry>) {
    |a| == |b| && forall i :: 0 <= i < |a| ==> SameMetadata(a[i].metadata, b[i].metadata) && a[i] == b[i].(metadata := a[i].metadata)
  }

  /** The same manifest but for the order of settings, capabilities, attributes and ACL texts. */
  ghost predicate Reordered(a: Scenario, b: Scenario) {
    && a == b.(settings := a.settings, capabilities := a.capabilities, entries := a.entries)
    && multiset(a.settings) == multiset(b.settings)
    && multiset(a.capabilities) == multiset(b.capabilities)
    && SameEntries(a.entries, b.entries)
  }

  lemma {:induction false} EntriesOrderless(a: seq<ManifestEntry>, b: seq<ManifestEntry>)
    requires SameEntries(a, b)
    ensures NormalEntries(a) == NormalEntries(b)
  {
    hide NormalEntry, SameMetadata;
    if a != [] {
      EntriesOrderless(a[..|a| - 1], b[..|b| - 1]);
      EntryOrderless(a[|a| - 1], b[|b| - 1]);
    }
  }

  lemma NormalOrderless(a: Scenario, b: Scenario)
    requires Reordered(a, b)
    ensures Normal(a) == Normal(b)
  {
    SettingsPermutation(a.settings, b.settings);
    CapabilitiesPermutation(a.capabilities, b.capabilities);
    EntriesOrderless(a.entries, b.entries);
    hide NormalSettings, NormalCapabilities, NormalEntries, NormalOperations, Structured, Declared, Lower, Trim;
  }

  // ---------------------------------------------------------------- integrity

  /** The digest of an encoded manifest, as lower-case hex. */
  type Digest = Scenario -> string

  predicate IsHex(s: string) {
    |s| % 2 == 0 && forall i :: 0 <= i < |s| ==> IsDigit(s[i]) || 'a' <= s[i] <= 'f'
  }

  /** scenarioManifestChecksum leaves the integrity record out of what it digests. */
  function Checksum(digest: Digest, m: Scenario): string {
    digest(m.(algorithm := "", checksum := ""))
  }

  /** The checksum covers everything but the integrity record: equal for every digest, equal manifests. */
  lemma ChecksumCovers(a: Scenario, b: Scenario)
    ensures (forall digest: Digest :: Checksum(digest, a) == Checksum(digest, b))
       <==> a == b.(algorithm := a.algorithm, checksum := a.checksum)
  {
    var bare := a.(algorithm := "", checksum := "");
    if forall digest: Digest :: Checksum(digest, a) == Checksum(digest, b) {
      var marks: Digest := m => if m == bare then "a" else "b";
      assert marks(bare) == "a" && Checksum(marks, a) == Checksum(marks, b);
    }
  }

  /** The text of 32 bytes in hex. */
  predicate DigestText(s: string) {
    |s| == 64 && forall c :: c in s ==> c in "0123456789abcdef"
  }

  ghost predicate YieldsHex(digest: Digest) {
    forall m: Scenario :: DigestText(digest(m))
  }

  lemma DigestIsHex(s: string)
    requires DigestText(s)
    ensures s != "" && IsHex(s)
  {
    forall i | 0 <= i < |s| ensures IsDigit(s[i]) || 'a' <= s[i] <= 'f' {
      assert s[i] in s;
    }
  }

  /** sealScenarioManifestIntegrity */
  function Sealed(digest: Digest, m: Scenario): Scenario {
    m.(algorithm := SHA256, checksum := Checksum(digest, m))
  }

  predicate AlgorithmOk(algorithm: string) {
    Trim(algorithm) != "" && Lower(algorithm) == SHA256
  }

  predicate ChecksumOk(given: string, actual: string) {
    Lower(Trim(given)) != "" && IsHex(Lower(Trim(given))) && Lower(Trim(given)) == actual
  }

  /** verifyScenarioManifestIntegrity */
  predicate Verified(digest: Digest, m: Scenario) {
    AlgorithmOk(m.algorithm) && ChecksumOk(m.checksum, Checksum(digest, m))
  }

  predicate CleanChar(c: char) {
    !IsSpace(c) && LowerChar(c) == c
  }

  lemma CleanText(s: string)
    requires s != "" && forall i :: 0 <= i < |s| ==> CleanChar(s[i])
    ensures Trim(s) == s && Lower(s) == s
  {
    TrimFixpoint(s);
    forall i | 0 <= i < |s| ensures Lower(s)[i] == s[i] {
    }
  }

  lemma HexIsClean(s: string)
    requires s != "" && IsHex(s)
    ensures Trim(s) == s && Lower(s) == s && ChecksumOk(s, s)
  {
    forall i | 0 <= i < |s| ensures CleanChar(s[i]) {
    }
    hide Trim, Lower;
    CleanText(s);
  }

  lemma Sha256IsClean()
    ensures Trim(SHA256) == SHA256 && Lower(SHA256) == SHA256 && AlgorithmOk(SHA256)
  {
    hide Trim, Lower;
    assert CleanChar('s') && CleanChar('h') && CleanChar('a') && CleanChar('2') && CleanChar('5') && CleanChar('6');
    CleanText(SHA256);
  }

  /** A sealed manifest verifies. */
  lemma SealVerifies(digest: Digest, m: Scenario)
    requires YieldsHex(digest)
    ensures Verified(digest, Sealed(digest, m))
  {
    hide AlgorithmOk, ChecksumOk, IsHex, DigestText, Trim, Lower;
    Sha256IsClean();
    DigestIsHex(Checksum(digest, m));
    HexIsClean(Checksum(digest, m));
  }

  lemma NormalIntegrity(m: Scenario)
    requires Normal(m).Some?
    ensures Normal(m).value.algorithm == Lower(Trim(m.algorithm)) && Normal(m).value.checksum == Lower(Trim(m.checksum))
  {
    hide NormalSettings, NormalCapabilities, NormalEntries, NormalOperations, Structured, Declared, Lower, Trim, HeaderOk;
  }

  /** Version 1, a known run mode and a positive entry limit, as they were given. */
  lemma NormalHeader(m: Scenario)
    requires Normal(m).Some?
    ensures m.version == 1 && !m.runMode.UnknownMode? && m.planEntryLimit > 0
    ensures var n := Normal(m).value;
            n.version == m.version && n.seed == m.seed && n.runMode == m.runMode && n.planEntryLimit == m.planEntryLimit
  {
    hide NormalSettings, NormalCapabilities, NormalEntries, NormalOperations, Structured, Declared, Lower, Trim;
  }

  /** On normal forms, verification accepts exactly the sealed manifests: nothing else was left in. */
  lemma VerifiedIsSealed(digest: Digest, m: Scenario)
    requires YieldsHex(digest) && Normal(m).Some?
    ensures var n := Normal(m).value; Verified(digest, n) <==> n == Sealed(digest, n)
  {
    var n := Normal(m).value;
    LowerTrimIdempotent(m.algorithm);
    LowerTrimIdempotent(m.checksum);
    LowerKeeps(Trim(m.algorithm));
    Sha256IsClean();
    SealVerifies(digest, n);
    hide Normal, Lower, Trim, IsHex, YieldsHex;
    assert n.algorithm == Lower(Trim(m.algorithm)) && n.checksum == Lower(Trim(m.checksum)) by { NormalIntegrity(m); }
  }

  /** What is accepted carries the digest of all of itself but its integrity record. */
  lemma VerifiedShows(digest: Digest, m: Scenario)
    requires Normal(m).Some? && Verified(digest, Normal(m).value)
    ensures var n := Normal(m).value; n.checksum == digest(n.(algorithm := "", checksum := "")) && n.algorithm == SHA256
  {
    LowerTrimIdempotent(m.algorithm);
    LowerTrimIdempotent(m.checksum);
    LowerKeeps(Trim(m.algorithm));
    NormalIntegrity(m);
    hide Normal, Lower, Trim, IsHex;
  }

  /**
    Tampering shows. Two accepted manifests with one checksum are the same manifest, or they are
    a collision of the digest: a change to any field of a sealed manifest is rejected otherwise.
   */
  lemma TamperingShows(digest: Digest, a: Scenario, b: Scenario)
    requires Normal(a).Some? && Verified(digest, Normal(a).value) && Normal(b).Some? && Verified(digest, Normal(b).value)
    requires Normal(a).value.checksum == Normal(b).value.checksum
    ensures var x, y := Normal(a).value.(algorithm := "", checksum := ""), Normal(b).value.(algorithm := "", checksum := "");
            Normal(a) == Normal(b) || (x != y && digest(x) == digest(y))
  {
    VerifiedShows(digest, a);
    VerifiedShows(digest, b);
    hide Normal, Verified;
  }

  /** Sealing a normal form gives a normal form. */
  lemma SealedIsNormal(digest: Digest, n: Scenario)
    requires YieldsHex(digest) && Normal(n) == Some(n)
    ensures Normal(Sealed(digest, n)) == Some(Sealed(digest, n))
  {
    Sha256IsClean();
    DigestIsHex(Checksum(digest, n));
    HexIsClean(Checksum(digest, n));
    hide *;
    CleanIntegrity(n, SHA256, Checksum(digest, n));
    assert Sealed(digest, n) == n.(algorithm := SHA256, checksum := Checksum(digest, n));
  }

  lemma CleanIntegrity(n: Scenario, algorithm: string, checksum: string)
    requires Normal(n) == Some(n)
    requires Trim(algorithm) == algorithm && Lower(algorithm) == algorithm
    requires Trim(checksum) == checksum && Lower(checksum) == checksum
    ensures Normal(n.(algorithm := algorithm, checksum := checksum)) == Some(n.(algorithm := algorithm, checksum := checksum))
  {
    hide NormalSettings, NormalCapabilities, NormalEntries, NormalOperations, Structured, Declared, Lower, Trim, HeaderOk;
    var m := n.(algorithm := algorithm, checksum := checksum);
    assert HeaderOk(m) == HeaderOk(n) by { SameHeader(n, m); }
  }

  lemma SameHeader(a: Scenario, b: Scenario)
    requires a.version == b.version && a.runMode == b.runMode && a.planEntryLimit == b.planEntryLimit
    ensures HeaderOk(a) == HeaderOk(b)
  {
  }

  /** What a serialisation library promises on the manifests that are written. */
  ghost predicate RoundTrips(encode: Scenario -> string, decode: string -> Option<Scenario>) {
    forall n: Scenario :: Normal(n) == Some(n) ==> Trim(encode(n)) != "" && decode(encode(n)) == Some(n)
  }

  /** ExportScenarioManifestJSON and its YAML twin */
  method Export(digest: Digest, encode: Scenario -> string, m: Scenario) returns (payload: Option<string>)
    ensures payload.Some? <==> Normal(m).Some?
    ensures payload.Some? ==>
      var n := Normal(m).value;
      payload.value == encode(n.(algorithm := SHA256, checksum := digest(n.(algorithm := "", checksum := ""))))
  {
    hide Normal;
    var normalized := NormalizeManifest(m);
    if normalized.None? { return None; }
    return Some(encode(Sealed(digest, normalized.value)));
  }

  /** ParseScenarioManifestJSON and its YAML twin */
  method ParseManifest(digest: Digest, decode: string -> Option<Scenario>, payload: string) returns (r: Option<Scenario>)
    ensures r.Some? <==> Trim(payload) != "" && decode(payload).Some? && Normal(decode(payload).value).Some?
                         && Verified(digest, Normal(decode(payload).value).value)
    ensures r.Some? ==> r == Normal(decode(payload).value)
    ensures r.Some? ==> r.value.algorithm == SHA256 && r.value.checksum == digest(r.value.(algorithm := "", checksum := ""))
  {
    hide Normal, Verified;
    if Trim(payload) == "" { return None; }
    var manifest := decode(payload);
    if manifest.None? { return None; }
    var normalized := NormalizeManifest(manifest.value);
    if normalized.None? { return None; }
    if !Verified(digest, normalized.value) { return None; }
    VerifiedShows(digest, manifest.value);
    return normalized;
  }

  /**
    Exporting and parsing back always succeeds and gives the sealed normal form, which verifies
    and is a normal form again.
   */
  method ExportThenParse(digest: Digest, encode: Scenario -> string, decode: string -> Option<Scenario>, m: Scenario)
      returns (payload: Option<string>, r: Option<Scenario>)
    requires YieldsHex(digest) && RoundTrips(encode, decode)
    ensures payload.Some? <==> Normal(m).Some?
    ensures payload.Some? ==> r == Some(Sealed(digest, Normal(m).value)) && Verified(digest, r.value) && Normal(r.value) == r
  {
    payload := Export(digest, encode, m);
    r := None;
    if payload.None? { return; }
    var n := Normal(m).value;
    NormalIdempotent(m);
    SealedIsNormal(digest, n);
    SealVerifies(digest, n);
    hide Normal, Verified;
    r := ParseManifest(digest, decode, payload.value);
  }

  /** A manifest built with derived capabilities declares all it needs after normalisation too. */
  lemma NormalNeedsNoMore(entries: seq<ManifestEntry>, ops: seq<RawOperation>)
    requires NormalEntries(entries).Some? && NormalOperations(ops).Some?
    ensures Needs(NormalEntries(entries).value, NormalOperations(ops).value) <= Needs(entries, ops)
  {
    var n, o := NormalEntries(entries).value, NormalOperations(ops).value;
    forall c | c in Needs(n, o) ensures c in Needs(entries, ops) {
      if e :| e in n && c in EntryNeeds(e) {
        NeededBefore(entries, e, c);
      } else {
        var op :| op in o && c in OperationNeeds(op);
        OperationNeededBefore(ops, op, c);
      }
    }
  }

  lemma {:induction false} NeededBefore(entries: seq<ManifestEntry>, n: ManifestEntry, c: string)
    requires NormalEntries(entries).Some? && n in NormalEntries(entries).value && c in EntryNeeds(n)
    ensures exists e :: e in entries && c in EntryNeeds(e)
  {
    hide NormalEntry, EntryNeeds;
    var front, last := entries[..|entries| - 1], entries[|entries| - 1];
    if n in NormalEntries(front).value {
      NeededBefore(front, n, c);
      var e :| e in front && c in EntryNeeds(e);
      assert e in entries;
    } else {
      assert NormalEntry(last) == Some(n);
      EntryNeedsNoMore(last);
      assert last in entries;
    }
  }

  lemma EntryNeedsNoMore(e: ManifestEntry)
    requires NormalEntry(e).Some?
    ensures EntryNeeds(NormalEntry(e).value) <= EntryNeeds(e)
  {
    hide NormalPath, NormalTarget, NormalContent, NormalSpecial, NormalMetadata;
    if NormalMetadata(e.metadata).Some? && NormalMetadata(e.metadata).value.Some? { MetadataNeedsNoMore(e.metadata); }
  }

  lemma MetadataNeedsNoMore(metadata: Option<ManifestMetadata>)
    requires NormalMetadata(metadata).Some? && NormalMetadata(metadata).value.Some?
    ensures metadata.Some?
    ensures var n := NormalMetadata(metadata).value.value;
            n.ownership == metadata.value.ownership && n.timestamps == metadata.value.timestamps
            && (n.xattrs != [] ==> metadata.value.xattrs != []) && (n.acl != [] ==> metadata.value.acl != [])
  {
  }

  lemma {:induction false} OperationNeededBefore(ops: seq<RawOperation>, n: RawOperation, c: string)
    requires NormalOperations(ops).Some? && n in NormalOperations(ops).value && c in OperationNeeds(n)
    ensures exists op :: op in ops && c in OperationNeeds(op)
  {
    hide NormalizeOperation;
    var front, last := ops[..|ops| - 1], ops[|ops| - 1];
    if n in NormalOperations(front).value {
      OperationNeededBefore(front, n, c);
      var op :| op in front && c in OperationNeeds(op);
      assert op in ops;
    } else {
      SameKindNormalised(last);
      assert last in ops;
    }
  }

  lemma SameKindNormalised(op: RawOperation)
    requires NormalizeOperation(op).Ok?
    ensures OperationNeeds(RenderOperation(NormalizeOperation(op).value)) == OperationNeeds(op)
  {
    hide NormalizePath, ValidateXAttrName;
  }
}
