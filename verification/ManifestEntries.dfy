/**
  manifest.go: manifest entries and their normal form. A manifest entry is one record for all
  entry types; normalising keeps the fields its type uses and clears the others. Error texts are
  not modelled: a rejected value normalises to None.
 */
module ManifestEntries {
  import opened Wrappers
  import opened Strings
  import opened Paths
  import opened Operations
  import opened FileSystem
  import opened PlanSpec
  import opened ContentPatterns
  import opened NormalLists

  datatype EntryType = DirType | FileType | SymlinkType | HardlinkType | SpecialFileType | UnknownType(name: string)

  datatype TargetType = Unset | Literal | ManifestPath | UnknownTarget(name: string)

  /** ScenarioManifestFileContent; no pattern stands for an invalid code. */
  datatype FileContent = FileContent(
    pattern: Option<Pattern>, logicalSize: int, seed: int, repeatedBlock: seq<Byte>,
    sparseExtents: seq<Extent>, overwriteExtents: seq<Extent>)

  /** ScenarioManifestSpecialFile; no kind stands for an invalid code. */
  datatype SpecialFile = SpecialFile(kind: Option<SpecialType>, major: int, minor: int)

  /** ScenarioManifestMetadata */
  datatype ManifestMetadata = ManifestMetadata(
    ownership: Option<(int, int)>, timestamps: Option<(int, int)>, xattrs: seq<XAttr>, acl: seq<string>)

  /** ScenarioManifestEntry */
  datatype ManifestEntry = ManifestEntry(
    kind: EntryType, path: string, mode: nat,
    data: seq<Byte>, content: Option<FileContent>,
    linkTarget: string, targetType: TargetType, sourcePath: string,
    special: Option<SpecialFile>, metadata: Option<ManifestMetadata>)

  const ROOT := "/"

  // ---------------------------------------------------------------- content and special files

  /** normalizeScenarioManifestFileContent accepts or rejects; it changes nothing. */
  predicate ContentOk(c: FileContent) {
    && c.pattern.Some? && c.logicalSize >= 0
    && (forall i :: 0 <= i < |c.sparseExtents| ==> Inside(c.sparseExtents[i], c.logicalSize))
    && (forall i :: 0 <= i < |c.overwriteExtents| ==> Inside(c.overwriteExtents[i], c.logicalSize))
    && (c.pattern == Some(RepeatedBlocks) && c.logicalSize > 0 ==> c.repeatedBlock != [])
  }

  /** One of the two extent loops. */
  method CheckExtents(extents: seq<Extent>, logicalSize: int) returns (ok: bool)
    ensures ok <==> forall i :: 0 <= i < |extents| ==> Inside(extents[i], logicalSize)
  {
    for i := 0 to |extents|
      invariant forall j :: 0 <= j < i ==> Inside(extents[j], logicalSize)
    {
      var e := extents[i];
      if e.offset < 0 || e.length <= 0 || e.offset + e.length > logicalSize { return false; }
    }
    return true;
  }

  method CheckContent(c: FileContent) returns (ok: bool)
    ensures ok <==> ContentOk(c)
  {
    if c.pattern.None? || c.logicalSize < 0 { return false; }
    var sparse := CheckExtents(c.sparseExtents, c.logicalSize);
    if !sparse { return false; }
    var overwrite := CheckExtents(c.overwriteExtents, c.logicalSize);
    if !overwrite { return false; }
    return !(c.pattern == Some(RepeatedBlocks) && c.logicalSize > 0 && |c.repeatedBlock| == 0);
  }

  function NormalContent(content: Option<FileContent>): Option<Option<FileContent>> {
    if content.Some? && !ContentOk(content.value) then None else Some(content)
  }

  function NormalSpecial(s: SpecialFile): Option<SpecialFile> {
    if s.kind.None? || s.major < 0 || s.minor < 0 then None
    else if IsDevice(s.kind.value) then Some(s)
    else Some(SpecialFile(s.kind, 0, 0))
  }

  // ---------------------------------------------------------------- metadata

  function MetadataOrNone(m: ManifestMetadata): Option<ManifestMetadata> {
    if m.ownership.None? && m.timestamps.None? && m.xattrs == [] && m.acl == [] then None else Some(m)
  }

  /** normalizeScenarioManifestMetadata */
  ghost function NormalMetadata(metadata: Option<ManifestMetadata>): Option<Option<ManifestMetadata>> {
    if metadata.None? then Some(None)
    else
      var m := metadata.value;
      var xattrs, acl := NormalXAttrs(m.xattrs), NormalACL(m.acl);
      if m.ownership.Some? && (m.ownership.value.0 < 0 || m.ownership.value.1 < 0) then None
      else if xattrs.None? || acl.None? then None
      else Some(MetadataOrNone(ManifestMetadata(m.ownership, m.timestamps, xattrs.value, acl.value)))
  }

  method NormalizeMetadata(metadata: Option<ManifestMetadata>) returns (r: Option<Option<ManifestMetadata>>)
    ensures r == NormalMetadata(metadata)
  {
    hide NormalXAttrs, NormalACL;
    if metadata.None? { return Some(None); }
    var m := metadata.value;
    if m.ownership.Some? && (m.ownership.value.0 < 0 || m.ownership.value.1 < 0) { return None; }
    var xattrs := NormalizeXAttrs(m.xattrs);
    if xattrs.None? { return None; }
    var acl := NormalizeACLEntries(m.acl);
    if acl.None? { return None; }
    return Some(MetadataOrNone(ManifestMetadata(m.ownership, m.timestamps, xattrs.value, acl.value)));
  }

  lemma MetadataIdempotent(metadata: Option<ManifestMetadata>)
    requires NormalMetadata(metadata).Some?
    ensures NormalMetadata(NormalMetadata(metadata).value) == NormalMetadata(metadata)
  {
    hide NormalXAttrs, NormalACL;
    if metadata.Some? {
      XAttrsIdempotent(metadata.value.xattrs);
      ACLIdempotent(metadata.value.acl);
    }
  }

  /** The same metadata up to the order of attributes and the order and repetition of ACL texts. */
  ghost predicate SameMetadata(a: Option<ManifestMetadata>, b: Option<ManifestMetadata>) {
    if a.None? || b.None? then a == b
    else
      && a.value.ownership == b.value.ownership && a.value.timestamps == b.value.timestamps
      && multiset(a.value.xattrs) == multiset(b.value.xattrs)
      && forall t :: t in a.value.acl <==> t in b.value.acl
  }

  lemma MetadataOrderless(a: Option<ManifestMetadata>, b: Option<ManifestMetadata>)
    requires SameMetadata(a, b)
    ensures NormalMetadata(a) == NormalMetadata(b)
  {
    hide NormalXAttrs, NormalACL;
    if a.Some? {
      XAttrsPermutation(a.value.xattrs, b.value.xattrs);
      ACLSameTexts(a.value.acl, b.value.acl);
    }
  }

  // ---------------------------------------------------------------- entries

  /** A rooted path string in normal form. */
  function NormalPath(raw: string, allowRoot: bool): Option<string> {
    var path := NormalizePath(raw, allowRoot);
    if path.Ok? then Some(Render(path.value)) else None
  }

  function NormalTarget(target: string, targetType: TargetType): Option<(string, TargetType)> {
    if Trim(target) == "" || NUL in target then None
    else match targetType
      case Unset => Some((target, Literal))
      case Literal => Some((target, Literal))
      case ManifestPath =>
        var path := NormalPath(target, true);
        if path.Some? then Some((path.value, ManifestPath)) else None
      case UnknownTarget(_) => None
  }

  function Blank(kind: EntryType, path: string, mode: nat): ManifestEntry {
    ManifestEntry(kind, path, mode, [], None, "", Unset, "", None, None)
  }

  ghost function NormalDir(e: ManifestEntry, path: string): Option<ManifestEntry> {
    var metadata := NormalMetadata(e.metadata);
    if (path != ROOT && e.mode == 0) || metadata.None? then None
    else Some(Blank(DirType, path, e.mode).(metadata := metadata.value))
  }

  ghost function NormalFile(e: ManifestEntry, path: string): Option<ManifestEntry> {
    var content, metadata := NormalContent(e.content), NormalMetadata(e.metadata);
    if e.mode == 0 || content.None? || (content.value.Some? && e.data != []) || metadata.None? then None
    else Some(Blank(FileType, path, e.mode).(data := e.data, content := content.value, metadata := metadata.value))
  }

  function NormalSymlink(e: ManifestEntry, path: string): Option<ManifestEntry> {
    var target := NormalTarget(e.linkTarget, e.targetType);
    if target.None? then None
    else Some(Blank(SymlinkType, path, e.mode).(linkTarget := target.value.0, targetType := target.value.1))
  }

  function NormalHardlink(e: ManifestEntry, path: string): Option<ManifestEntry> {
    var source := NormalPath(e.sourcePath, false);
    if source.None? || source.value == path then None
    else Some(Blank(HardlinkType, path, e.mode).(sourcePath := source.value))
  }

  ghost function NormalSpecialEntry(e: ManifestEntry, path: string): Option<ManifestEntry> {
    if e.mode == 0 || e.special.None? || NormalSpecial(e.special.value).None? || NormalMetadata(e.metadata) != Some(None) then None
    else Some(Blank(SpecialFileType, path, e.mode).(special := NormalSpecial(e.special.value)))
  }

  ghost function NormalBody(e: ManifestEntry, path: string): Option<ManifestEntry> {
    match e.kind
    case DirType => NormalDir(e, path)
    case FileType => NormalFile(e, path)
    case SymlinkType => NormalSymlink(e, path)
    case HardlinkType => NormalHardlink(e, path)
    case SpecialFileType => NormalSpecialEntry(e, path)
    case UnknownType(_) => None
  }

  /** normalizeScenarioManifestEntry */
  ghost function NormalEntry(e: ManifestEntry): Option<ManifestEntry> {
    var path := NormalPath(e.path, e.kind.DirType?);
    if path.None? || e.mode > MAX_POSIX_FILE_MODE then None else NormalBody(e, path.value)
  }

  method NormalizeEntry(e: ManifestEntry) returns (r: Option<ManifestEntry>)
    ensures r == NormalEntry(e)
  {
    hide NormalMetadata, NormalPath, NormalTarget, ContentOk;
    if e.kind.UnknownType? { return None; }
    var path := NormalPath(e.path, e.kind.DirType?);
    if path.None? { return None; }
    if e.mode > MAX_POSIX_FILE_MODE { return None; }
    var normalized := Blank(e.kind, path.value, e.mode);
    match e.kind {
      case DirType =>
        if path.value != ROOT && e.mode == 0 { return None; }
        var metadata := NormalizeMetadata(e.metadata);
        if metadata.None? { return None; }
        return Some(normalized.(metadata := metadata.value));
      case FileType =>
        if e.mode == 0 { return None; }
        if e.content.Some? {
          var ok := CheckContent(e.content.value);
          if !ok { return None; }
          if |e.data| > 0 { return None; }
        }
        var metadata := NormalizeMetadata(e.metadata);
        if metadata.None? { return None; }
        return Some(normalized.(data := e.data, content := e.content, metadata := metadata.value));
      case SymlinkType =>
        var target := NormalTarget(e.linkTarget, e.targetType);
        if target.None? { return None; }
        return Some(normalized.(linkTarget := target.value.0, targetType := target.value.1));
      case HardlinkType =>
        var source := NormalPath(e.sourcePath, false);
        if source.None? || source.value == path.value { return None; }
        return Some(normalized.(sourcePath := source.value));
      case SpecialFileType =>
        if e.mode == 0 || e.special.None? { return None; }
        var special := NormalSpecial(e.special.value);
        if special.None? { return None; }
        var metadata := NormalizeMetadata(e.metadata);
        if metadata.None? || metadata.value.Some? { return None; }
        return Some(normalized.(special := special));
    }
  }

  lemma PathIdempotent(raw: string, allowRoot: bool)
    requires NormalPath(raw, allowRoot).Some?
    ensures NormalPath(NormalPath(raw, allowRoot).value, allowRoot) == NormalPath(raw, allowRoot)
  {
    hide NormalizePath;
    NormalizePathOutput(raw, allowRoot);
    NormalizePathFixpoint(NormalizePath(raw, allowRoot).value, allowRoot);
  }

  lemma TargetIdempotent(target: string, targetType: TargetType)
    requires NormalTarget(target, targetType).Some?
    ensures var n := NormalTarget(target, targetType).value;
            NormalTarget(n.0, n.1) == Some(n)
  {
    hide Trim, NormalPath;
    if targetType.ManifestPath? {
      PathTargetIdempotent(target);
    }
  }

  lemma PathTargetIdempotent(target: string)
    requires NormalPath(target, true).Some?
    ensures var n := NormalPath(target, true).value; NormalTarget(n, ManifestPath) == Some((n, ManifestPath))
  {
    PathIdempotent(target, true);
    NormalizePathOutput(target, true);
    hide NormalizePath, Trim, Render;
    RenderedIsTarget(NormalizePath(target, true).value);
    hide NormalPath;
  }

  lemma RenderedIsTarget(p: Path)
    requires Canonical(p)
    ensures Trim(Render(p)) != "" && NUL !in Render(p)
  {
    RootedNotBlank(Render(p));
    RenderHasNoNul(p);
  }

  /** The second pass over an entry's own fields changes nothing. */
  ghost predicate BodyStable(e: ManifestEntry, path: string) {
    NormalBody(e, path).Some? ==>
      var n := NormalBody(e, path).value;
      n.kind == e.kind && n.path == path && n.mode == e.mode && NormalBody(n, path) == Some(n)
  }

  lemma DirStable(e: ManifestEntry, path: string)
    requires e.kind.DirType?
    ensures BodyStable(e, path)
  {
    hide NormalMetadata;
    if NormalMetadata(e.metadata).Some? { MetadataIdempotent(e.metadata); }
  }

  lemma FileStable(e: ManifestEntry, path: string)
    requires e.kind.FileType?
    ensures BodyStable(e, path)
  {
    hide NormalMetadata, ContentOk;
    if NormalMetadata(e.metadata).Some? { MetadataIdempotent(e.metadata); }
  }

  lemma SymlinkStable(e: ManifestEntry, path: string)
    requires e.kind.SymlinkType?
    ensures BodyStable(e, path)
  {
    hide NormalTarget;
    if NormalTarget(e.linkTarget, e.targetType).Some? { TargetIdempotent(e.linkTarget, e.targetType); }
  }

  lemma HardlinkStable(e: ManifestEntry, path: string)
    requires e.kind.HardlinkType?
    ensures BodyStable(e, path)
  {
    hide NormalPath;
    if NormalPath(e.sourcePath, false).Some? { PathIdempotent(e.sourcePath, false); }
  }

  lemma SpecialStable(e: ManifestEntry, path: string)
    requires e.kind.SpecialFileType?
    ensures BodyStable(e, path)
  {
    NoMetadataIsNormal();
    hide NormalMetadata;
  }

  /** Normalising an entry twice is normalising it once. */
  lemma EntryIdempotent(e: ManifestEntry)
    requires NormalEntry(e).Some?
    ensures NormalEntry(NormalEntry(e).value) == NormalEntry(e)
  {
    PathIdempotent(e.path, e.kind.DirType?);
    var path := NormalPath(e.path, e.kind.DirType?).value;
    assert BodyStable(e, path) by {
      match e.kind
      case DirType => DirStable(e, path);
      case FileType => FileStable(e, path);
      case SymlinkType => SymlinkStable(e, path);
      case HardlinkType => HardlinkStable(e, path);
      case SpecialFileType => SpecialStable(e, path);
      case UnknownType(_) =>
    }
    hide NormalBody, NormalPath;
  }

  lemma NoMetadataIsNormal()
    ensures NormalMetadata(None) == Some(None)
  {
  }

  lemma EntryOrderless(a: ManifestEntry, b: ManifestEntry)
    requires SameMetadata(a.metadata, b.metadata) && a == b.(metadata := a.metadata)
    ensures NormalEntry(a) == NormalEntry(b)
  {
    hide NormalMetadata, NormalPath, NormalTarget, ContentOk;
    MetadataOrderless(a.metadata, b.metadata);
  }
}
