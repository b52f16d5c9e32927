/**
  manifest.go: planned entries to manifest entries and back. What the round trip keeps, the
  conditions under which it keeps everything, and the plans that cannot become manifests.
 */
module ManifestPlan {
  import opened Wrappers
  import opened Strings
  import opened Sorting
  import opened Paths
  import opened PlanSpec
  import opened NormalLists
  import opened ManifestEntries
  import opened ManifestPaths
  import Manifest

  // ---------------------------------------------------------------- metadata

  /** A map's pairs, in some order; normalisation sorts them by name. */
  ghost function Listing(m: map<string, seq<Byte>>): seq<XAttr> {
    if m == map[] then []
    else
      var name :| name in m;
      Listing(m - {name}) + [Pair(name, m[name])]
  }

  /** The map a list of attributes stands for, later ones winning. */
  function AsMap(xattrs: seq<XAttr>): map<string, seq<Byte>> {
    if xattrs == [] then map[]
    else AsMap(xattrs[..|xattrs| - 1])[xattrs[|xattrs| - 1].name := xattrs[|xattrs| - 1].value]
  }

  ghost predicate Lists(xattrs: seq<XAttr>, m: map<string, seq<Byte>>) {
    UniqueNames(xattrs) && forall x :: x in xattrs <==> x.name in m && m[x.name] == x.value
  }

  lemma {:induction false} ListingLists(m: map<string, seq<Byte>>)
    ensures Lists(Listing(m), m)
    decreases m
  {
    if m != map[] {
      var all := Listing(m);
      var last := all[|all| - 1];
      var rest := m - {last.name};
      ListingLists(rest);
      var front := Listing(rest);
      assert all == front + [last];
      assert forall x :: x in all <==> x in front || x == last;
    }
  }

  lemma {:induction false} MapOfListing(xattrs: seq<XAttr>, m: map<string, seq<Byte>>)
    requires Lists(xattrs, m)
    ensures AsMap(xattrs) == m
    decreases xattrs
  {
    if xattrs == [] {
      assert forall name :: name in m ==> Pair(name, m[name]) in xattrs;
      assert m.Keys == {};
    } else {
      var front, last := xattrs[..|xattrs| - 1], xattrs[|xattrs| - 1];
      assert xattrs == front + [last] && last in xattrs;
      assert forall x :: x in xattrs <==> x in front || x == last;
      LastIsNew(xattrs);
      var rest := m - {last.name};
      MapOfListing(front, rest);
      assert m == rest[last.name := last.value];
    }
  }

  lemma LastIsNew(xattrs: seq<XAttr>)
    requires UniqueNames(xattrs) && xattrs != []
    ensures var front, last := xattrs[..|xattrs| - 1], xattrs[|xattrs| - 1];
            UniqueNames(front) && forall x :: x in front ==> x.name != last.name
  {
    var front, last := xattrs[..|xattrs| - 1], xattrs[|xattrs| - 1];
    assert last in xattrs;
    forall x | x in front ensures x in xattrs && x != last {
      var k :| 0 <= k < |front| && front[k] == x;
      assert xattrs[k] == x;
    }
  }

  /** scenarioManifestMetadataFromConfig */
  ghost function FromConfig(metadata: Metadata): Option<Option<ManifestMetadata>> {
    if metadata == NO_METADATA then Some(None)
    else NormalMetadata(Some(ManifestMetadata(
      metadata.owner, metadata.times,
      if metadata.xattrs.Some? then Listing(metadata.xattrs.value) else [],
      if metadata.acl.Some? then metadata.acl.value else [])))
  }

  /** metadataConfigFromScenarioManifestMetadata */
  ghost function ToConfig(metadata: Option<ManifestMetadata>): Option<Metadata> {
    var normal := NormalMetadata(metadata);
    if normal.None? then None
    else if normal.value.None? then Some(NO_METADATA)
    else
      var n := normal.value.value;
      Some(Metadata(n.ownership, n.timestamps,
                    if n.xattrs == [] then None else Some(AsMap(n.xattrs)),
                    if n.acl == [] then None else Some(n.acl)))
  }

  /** Sorted, without repetition, and every text trimmed and acceptable. */
  ghost predicate CanonicalACL(acl: seq<string>) {
    Sorted(Leq, acl) && Distinct(acl) && forall t :: t in acl ==> Trimmed(t) && ACLTextOk(t)
  }

  /** Attributes and ACLs are non-empty when they are there, and the ACL texts are canonical. */
  ghost predicate Replayable(metadata: Metadata) {
    && (metadata.xattrs.Some? ==> metadata.xattrs.value != map[])
    && (metadata.acl.Some? ==> metadata.acl.value != [] && CanonicalACL(metadata.acl.value))
  }

  lemma TrimsOfTrimmed(acl: seq<string>)
    ensures Trims(acl) == acl <==> forall t :: t in acl ==> Trimmed(t)
  {
    hide Trim;
    if forall t :: t in acl ==> Trimmed(t) {
      forall i | 0 <= i < |acl| ensures Trims(acl)[i] == acl[i] { TrimFixpoint(acl[i]); }
    }
    if Trims(acl) == acl {
      forall t | t in acl ensures Trimmed(t) {
        var i :| 0 <= i < |acl| && acl[i] == t;
        assert Trims(acl)[i] == t;
        TrimFixpoint(t);
      }
    }
  }

  lemma TrimsAreTrimmed(texts: seq<string>)
    ensures forall t :: t in Trims(texts) ==> Trimmed(t)
  {
    hide Trim, Trimmed;
    forall i | 0 <= i < |texts| ensures Trimmed(Trims(texts)[i]) { TrimIsTrimmed(texts[i]); }
  }

  lemma NormalTextsTrimmed(acl: seq<string>)
    requires NormalACL(acl) == Some(acl)
    ensures forall t :: t in acl ==> Trimmed(t) && ACLTextOk(t)
  {
    NormalACLMeans(acl);
    assert forall t :: t in Trims(acl) ==> ACLTextOk(t);
    TrimsAreTrimmed(acl);
    hide *;
  }

  /** The canonical lists are the fixpoints of normalisation. */
  lemma CanonicalIsNormal(acl: seq<string>)
    ensures NormalACL(acl) == Some(acl) <==> CanonicalACL(acl)
  {
    if CanonicalACL(acl) {
      TrimsOfTrimmed(acl);
      StringOrder();
      SortFixpoint(Leq, acl);
      DistinctStays(acl);
    }
    if NormalACL(acl) == Some(acl) {
      NormalTextsTrimmed(acl);
      NormalACLMeans(acl);
    }
  }

  lemma SortedListing(m: map<string, seq<Byte>>)
    requires NormalXAttrs(Listing(m)).Some?
    ensures AsMap(NormalXAttrs(Listing(m)).value) == m
    ensures NormalXAttrs(Listing(m)).value == [] <==> m == map[]
  {
    ListingLists(m);
    SortedPairs(Listing(m));
    hide UniqueNames, Sort;
    MapOfListing(Sort(PairLeq, Listing(m)), m);
    if m != map[] {
      var name :| name in m;
      assert Pair(name, m[name]) in Listing(m);
    }
  }

  lemma NormalACLEmpty(texts: seq<string>)
    requires NormalACL(texts).Some?
    ensures NormalACL(texts).value == [] <==> texts == []
  {
    NormalACLMeans(texts);
    if texts != [] { assert Trims(texts)[0] in Trims(texts); }
  }

  /** What comes back is what was planned exactly when the metadata is replayable. */
  lemma MetadataRoundTrip(metadata: Metadata)
    requires FromConfig(metadata).Some?
    ensures ToConfig(FromConfig(metadata).value).Some?
    ensures ToConfig(FromConfig(metadata).value) == Some(metadata) <==> Replayable(metadata)
  {
    assert NormalXAttrs([]) == Some([]) && NormalACL([]) == Some([]);
    if metadata != NO_METADATA {
      var xattrs := if metadata.xattrs.Some? then Listing(metadata.xattrs.value) else [];
      var acl := if metadata.acl.Some? then metadata.acl.value else [];
      MetadataIdempotent(Some(ManifestMetadata(metadata.owner, metadata.times, xattrs, acl)));
      hide NormalXAttrs, NormalACL;
      assert NormalXAttrs(xattrs).Some? && NormalACL(acl).Some?;
      if metadata.xattrs.Some? { SortedListing(metadata.xattrs.value); }
      NormalACLEmpty(acl);
      CanonicalIsNormal(acl);
      hide CanonicalACL;
    }
  }

  // ---------------------------------------------------------------- content

  /** scenarioManifestFileContentFromPlanned */
  function FromContent(content: Option<Content>): Option<Option<FileContent>> {
    if content.None? then Some(None)
    else
      var c := content.value;
      NormalContent(Some(FileContent(Some(c.pattern), c.logicalSize, c.seed, c.repeatedBlock, c.sparseExtents, c.overwriteExtents)))
  }

  /** plannedFileContentFromScenarioManifestFileContent */
  function ToContent(content: Option<FileContent>): Option<Option<Content>> {
    if content.None? then Some(None)
    else if !ContentOk(content.value) then None
    else
      var c := content.value;
      Some(Some(Content(c.pattern.value, c.logicalSize, 0, false, c.seed, c.repeatedBlock, c.sparseExtents, c.overwriteExtents)))
  }

  /** The predictions are not part of a manifest. */
  function WithoutPredictions(content: Option<Content>): Option<Content> {
    if content.None? then None else Some(content.value.(expectedWrittenBytes := 0, expectedSparse := false))
  }

  lemma ContentRoundTrip(content: Option<Content>)
    requires FromContent(content).Some?
    ensures ToContent(FromContent(content).value) == Some(WithoutPredictions(content))
  {
  }

  // ---------------------------------------------------------------- entries

  /** scenarioManifestEntryFromPlannedEntry */
  ghost function FromPlanned(base: Path, e: Entry): Option<ManifestEntry> {
    var path := PlanPathToManifestPath(Render(base), Render(e.path));
    if path.None? then None
    else match e
      case DirEntry(_, mode, metadata) =>
        var m := FromConfig(metadata);
        if m.None? then None else Some(Blank(DirType, path.value, mode).(metadata := m.value))
      case FileEntry(_, mode, data, content, metadata) =>
        var m, c := FromConfig(metadata), FromContent(content);
        if m.None? || c.None? then None
        else Some(Blank(FileType, path.value, mode).(data := data, content := c.value, metadata := m.value))
      case SymlinkEntry(_, target, metadata) =>
        var m, t := FromConfig(metadata), TryTranslate(Render(base), target);
        if m.None? || t.None? then None
        else
          var blank := Blank(SymlinkType, path.value, 0).(metadata := m.value);
          if t.value.Some? then Some(blank.(linkTarget := t.value.value, targetType := ManifestPath))
          else Some(blank.(linkTarget := target, targetType := Literal))
      case HardlinkEntry(_, source) =>
        var s := PlanPathToManifestPath(Render(base), Render(source));
        if s.None? then None else Some(Blank(HardlinkType, path.value, 0).(sourcePath := s.value))
      case SpecialEntry(_, mode, kind, major, minor, metadata) =>
        var m := FromConfig(metadata);
        if m.None? then None
        else Some(Blank(SpecialFileType, path.value, mode).(special := Some(SpecialFile(Some(kind), major, minor)), metadata := m.value))
  }

  /** plannedEntryFromScenarioManifestEntry, over a base without symbolic links */
  ghost function ToPlanned(base: Path, e: ManifestEntry): Option<Entry> {
    var path, m := OperationPathToFS(Render(base), e.path), ToConfig(e.metadata);
    if path.None? || m.None? then None
    else match e.kind
      case DirType => Some(DirEntry(Clean(path.value), e.mode, m.value))
      case FileType =>
        var c := ToContent(e.content);
        if c.None? then None else Some(FileEntry(Clean(path.value), e.mode, e.data, c.value, m.value))
      case SymlinkType =>
        if e.targetType.ManifestPath? then
          var target := OperationPathToFS(Render(base), e.linkTarget);
          if target.None? then None else Some(SymlinkEntry(Clean(path.value), target.value, m.value))
        else Some(SymlinkEntry(Clean(path.value), e.linkTarget, m.value))
      case HardlinkType =>
        var source := OperationPathToFS(Render(base), e.sourcePath);
        if source.None? then None else Some(HardlinkEntry(Clean(path.value), Clean(source.value)))
      case SpecialFileType =>
        if e.special.None? || e.special.value.kind.None? then None
        else Some(SpecialEntry(Clean(path.value), e.mode, e.special.value.kind.value, e.special.value.major, e.special.value.minor, m.value))
      case UnknownType(_) => None
  }

  /** The planned entry up to the predictions a manifest does not carry. */
  function Replayed(e: Entry): Entry {
    match e
    case FileEntry(path, mode, data, content, metadata) => FileEntry(path, mode, data, WithoutPredictions(content), metadata)
    case _ => e
  }

  /** A link target that reads the same after translation: relative, outside the base, or already clean. */
  predicate TargetKept(base: Path, target: string) {
    Trim(target) != "" && target[0] == '/' && base <= Clean(target) ==> target == Render(Clean(target))
  }

  /** Metadata and target come through the two converters. */
  ghost predicate Convertible(base: Path, e: Entry) {
    match e
    case DirEntry(_, _, metadata) => Replayable(metadata)
    case FileEntry(_, _, _, _, metadata) => Replayable(metadata)
    case SymlinkEntry(_, target, metadata) => Replayable(metadata) && TargetKept(base, target)
    case HardlinkEntry(_, _) => true
    case SpecialEntry(_, _, _, _, _, metadata) => Replayable(metadata)
  }

  lemma PathRoundTrip(base: Path, p: Path)
    requires Canonical(base) && Canonical(p) && PlanPathToManifestPath(Render(base), Render(p)).Some?
    ensures OperationPathToFS(Render(base), PlanPathToManifestPath(Render(base), Render(p)).value) == Some(Render(p))
    ensures Clean(Render(p)) == p
  {
    TranslationsInverse(base, p, p);
    CleanRender(p);
    hide PlanPathToManifestPath, OperationPathToFS, Render, Clean;
    var m := PlanPathToManifestPath(Render(base), Render(p)).value;
    assert PlanPathToManifestPath(Render(base), Render(p)) == Some(m);
  }

  /** The target a link has after the round trip. */
  function TargetAfter(base: string, target: string): Option<string> {
    var t := TryTranslate(base, target);
    if t.None? then None else if t.value.Some? then OperationPathToFS(base, t.value.value) else Some(target)
  }

  lemma TargetRoundTrip(base: Path, target: string)
    requires Canonical(base) && TryTranslate(Render(base), target).Some?
    ensures TargetAfter(Render(base), target).Some?
    ensures TargetAfter(Render(base), target) == Some(target) <==> TargetKept(base, target)
  {
    assert Trim(target) != "";
    TranslateCases(base, target);
    if target[0] == '/' && base <= Clean(target) {
      var q := Clean(target)[|base|..];
      hide TryTranslate, OperationPathToFS, Clean, Render, Trim;
      ToFilesystem(base, q);
      assert base + q == Clean(target);
    }
  }

  /** What is said of one entry below. */
  ghost predicate ComesBack(base: Path, e: Entry) {
    FromPlanned(base, e).Some? ==>
      var back := ToPlanned(base, FromPlanned(base, e).value);
      back.Some? && (back == Some(Replayed(e)) <==> Convertible(base, e))
  }

  lemma DirComesBack(base: Path, e: Entry)
    requires Canonical(base) && Canonical(e.path) && e.DirEntry?
    ensures ComesBack(base, e)
  {
    hide PlanPathToManifestPath, OperationPathToFS, Render, Clean, FromConfig, ToConfig, Replayable;
    if FromPlanned(base, e).Some? {
      PathRoundTrip(base, e.path);
      MetadataRoundTrip(e.metadata);
    }
  }

  lemma FileComesBack(base: Path, e: Entry)
    requires Canonical(base) && Canonical(e.path) && e.FileEntry?
    ensures ComesBack(base, e)
  {
    hide PlanPathToManifestPath, OperationPathToFS, Render, Clean, FromConfig, ToConfig, FromContent, ToContent, Replayable;
    if FromPlanned(base, e).Some? {
      PathRoundTrip(base, e.path);
      MetadataRoundTrip(e.metadata);
      ContentRoundTrip(e.content);
    }
  }

  lemma SpecialComesBack(base: Path, e: Entry)
    requires Canonical(base) && Canonical(e.path) && e.SpecialEntry?
    ensures ComesBack(base, e)
  {
    hide PlanPathToManifestPath, OperationPathToFS, Render, Clean, FromConfig, ToConfig, Replayable;
    if FromPlanned(base, e).Some? {
      PathRoundTrip(base, e.path);
      MetadataRoundTrip(e.metadata);
    }
  }

  lemma HardlinkComesBack(base: Path, e: Entry)
    requires Canonical(base) && Canonical(e.path) && e.HardlinkEntry? && Canonical(e.source)
    ensures ComesBack(base, e)
  {
    hide PlanPathToManifestPath, OperationPathToFS, Render, Clean, FromConfig, ToConfig;
    NothingToConvert();
    if FromPlanned(base, e).Some? {
      PathRoundTrip(base, e.path);
      PathRoundTrip(base, e.source);
    }
  }

  /** The fields of a converted link. */
  lemma SymlinkConverted(base: Path, e: Entry)
    requires e.SymlinkEntry? && FromPlanned(base, e).Some?
    ensures TryTranslate(Render(base), e.target).Some? && FromConfig(e.metadata).Some?
    ensures PlanPathToManifestPath(Render(base), Render(e.path)).Some?
    ensures var m, t := FromPlanned(base, e).value, TryTranslate(Render(base), e.target).value;
            m.kind == SymlinkType && m.metadata == FromConfig(e.metadata).value
            && m.path == PlanPathToManifestPath(Render(base), Render(e.path)).value
            && m.targetType == (if t.Some? then ManifestPath else Literal)
            && m.linkTarget == (if t.Some? then t.value else e.target)
  {
    hide PlanPathToManifestPath, TryTranslate, Render, FromConfig, FromContent;
  }

  lemma SymlinkReplanned(base: Path, m: ManifestEntry, path: string, target: string, metadata: Metadata)
    requires m.kind == SymlinkType && OperationPathToFS(Render(base), m.path) == Some(path) && ToConfig(m.metadata) == Some(metadata)
    requires if m.targetType.ManifestPath? then OperationPathToFS(Render(base), m.linkTarget) == Some(target) else m.linkTarget == target
    ensures ToPlanned(base, m) == Some(SymlinkEntry(Clean(path), target, metadata))
  {
    hide OperationPathToFS, Render, Clean, ToConfig, ToContent;
  }

  lemma SymlinkComesBack(base: Path, e: Entry)
    requires Canonical(base) && Canonical(e.path) && e.SymlinkEntry?
    ensures ComesBack(base, e)
  {
    hide *;
    if FromPlanned(base, e).Some? {
      var m := FromPlanned(base, e).value;
      SymlinkConverted(base, e);
      PathRoundTrip(base, e.path);
      MetadataRoundTrip(e.metadata);
      TargetRoundTrip(base, e.target);
      AfterTranslation(Render(base), e.target);
      var target, metadata := TargetAfter(Render(base), e.target).value, ToConfig(m.metadata).value;
      SymlinkReplanned(base, m, Render(e.path), target, metadata);
      SymlinkVerdict(base, e, target, metadata);
    } else {
      NothingConverted(base, e);
    }
  }

  lemma AfterTranslation(base: string, target: string)
    requires TryTranslate(base, target).Some?
    ensures var t := TryTranslate(base, target).value;
            TargetAfter(base, target) == if t.Some? then OperationPathToFS(base, t.value) else Some(target)
  {
    hide TryTranslate, OperationPathToFS;
  }

  lemma NothingConverted(base: Path, e: Entry)
    requires FromPlanned(base, e).None?
    ensures ComesBack(base, e)
  {
    hide FromPlanned, ToPlanned;
  }

  lemma SymlinkVerdict(base: Path, e: Entry, target: string, metadata: Metadata)
    requires e.SymlinkEntry? && FromPlanned(base, e).Some?
    requires ToPlanned(base, FromPlanned(base, e).value) == Some(SymlinkEntry(e.path, target, metadata))
    requires target == e.target <==> TargetKept(base, e.target)
    requires metadata == e.metadata <==> Replayable(e.metadata)
    ensures ComesBack(base, e)
  {
    hide FromPlanned, ToPlanned, Replayable, TargetKept;
  }

  /** The two converters alone: what they keep before normalisation has its say. */
  lemma ConversionRoundTrip(base: Path, e: Entry)
    requires Canonical(base) && Canonical(e.path) && (e.HardlinkEntry? ==> Canonical(e.source))
    requires FromPlanned(base, e).Some?
    ensures ToPlanned(base, FromPlanned(base, e).value).Some?
    ensures ToPlanned(base, FromPlanned(base, e).value) == Some(Replayed(e)) <==> Convertible(base, e)
  {
    hide FromPlanned, ToPlanned, Replayed, Convertible;
    match e
    case DirEntry(_, _, _) => DirComesBack(base, e);
    case FileEntry(_, _, _, _, _) => FileComesBack(base, e);
    case SymlinkEntry(_, _, _) => SymlinkComesBack(base, e);
    case HardlinkEntry(_, _) => HardlinkComesBack(base, e);
    case SpecialEntry(_, _, _, _, _, _) => SpecialComesBack(base, e);
  }

  lemma NothingToConvert()
    ensures ToConfig(None) == Some(NO_METADATA)
  {
  }

  // ---------------------------------------------------------------- plans that become manifests

  /** The entries of a plan, converted one by one. */
  ghost function FromPlan(base: Path, entries: seq<Entry>): Option<seq<ManifestEntry>> {
    if entries == [] then Some([])
    else
      var front, last := FromPlan(base, entries[..|entries| - 1]), FromPlanned(base, entries[|entries| - 1]);
      if front.None? || last.None? then None else Some(front.value + [last.value])
  }

  lemma {:induction false} FromPlanAt(base: Path, entries: seq<Entry>, i: nat)
    requires FromPlan(base, entries).Some? && i < |entries|
    ensures |FromPlan(base, entries).value| == |entries|
    ensures FromPlanned(base, entries[i]) == Some(FromPlan(base, entries).value[i])
    decreases entries
  {
    hide FromPlanned;
    var front := entries[..|entries| - 1];
    if |front| > 0 {
      FromPlanAt(base, front, if i < |front| then i else 0);
    }
  }

  lemma {:induction false} NormalEntriesAt(entries: seq<ManifestEntry>, i: nat)
    requires Manifest.NormalEntries(entries).Some? && i < |entries|
    ensures |Manifest.NormalEntries(entries).value| == |entries|
    ensures NormalEntry(entries[i]) == Some(Manifest.NormalEntries(entries).value[i])
    decreases entries
  {
    hide NormalEntry;
    var front := entries[..|entries| - 1];
    if |front| > 0 {
      NormalEntriesAt(front, if i < |front| then i else 0);
    }
  }

  /** Normalising keeps the converted path. */
  lemma ConvertedPath(base: Path, e: Entry)
    requires Canonical(base) && Canonical(e.path) && FromPlanned(base, e).Some? && NormalEntry(FromPlanned(base, e).value).Some?
    ensures base <= e.path && NormalEntry(FromPlanned(base, e).value).value.path == Render(e.path[|base|..])
  {
    hide FromPlanned, NormalEntry, NormalPath, Render, PlanPathToManifestPath, ValidName;
    ToManifest(base, e.path);
    ConvertedHead(base, e);
    var q := e.path[|base|..];
    NormalPathKeeps(q, e.DirEntry?);
    NormalKeepsPath(FromPlanned(base, e).value);
  }

  lemma ConvertedHead(base: Path, e: Entry)
    requires FromPlanned(base, e).Some?
    ensures PlanPathToManifestPath(Render(base), Render(e.path)) == Some(FromPlanned(base, e).value.path)
    ensures FromPlanned(base, e).value.kind.DirType? == e.DirEntry?
  {
    hide PlanPathToManifestPath, FromConfig, FromContent, TryTranslate, Render;
  }

  lemma NormalPathKeeps(q: Path, allowRoot: bool)
    requires Canonical(q)
    ensures NormalPath(Render(q), allowRoot).Some? ==> NormalPath(Render(q), allowRoot) == Some(Render(q))
  {
    CleanRender(q);
    hide Clean, Render;
  }

  lemma NormalKeepsPath(m: ManifestEntry)
    requires NormalEntry(m).Some?
    ensures NormalPath(m.path, m.kind.DirType?).Some? && NormalEntry(m).value.path == NormalPath(m.path, m.kind.DirType?).value
  {
    hide NormalPath, NormalTarget, NormalContent, NormalSpecial, NormalMetadata;
  }

  /** A link whose absolute target lies inside the base is converted to a manifest path. */
  lemma InsideTarget(base: Path, e: Entry, target: Path)
    requires Canonical(base) && Canonical(e.path) && Canonical(target) && base <= target
    requires e.SymlinkEntry? && e.target == Render(target)
    requires FromPlanned(base, e).Some? && NormalEntry(FromPlanned(base, e).value).Some?
    ensures var n := NormalEntry(FromPlanned(base, e).value).value;
            n.kind.SymlinkType? && n.targetType.ManifestPath? && n.linkTarget == Render(target[|base|..])
  {
    RootedTarget(target);
    hide *;
    TranslateCases(base, e.target);
    CleanRender(target);
    SymlinkConverted(base, e);
    NormalPathKeeps(target[|base|..], true);
    NormalisedSymlink(FromPlanned(base, e).value);
  }

  /** Normalising a link with a manifest target. */
  lemma NormalisedSymlink(m: ManifestEntry)
    requires m.kind == SymlinkType && m.targetType == ManifestPath && NormalEntry(m).Some?
    ensures var n := NormalEntry(m).value;
            n.kind.SymlinkType? && n.targetType.ManifestPath?
            && NormalPath(m.linkTarget, true).Some? && n.linkTarget == NormalPath(m.linkTarget, true).value
  {
    hide NormalPath, NormalMetadata, NormalContent, NormalSpecial;
  }

  lemma RootedTarget(target: Path)
    requires Canonical(target)
    ensures Render(target)[0] == '/' && Trim(Render(target)) != "" && NUL !in Render(target)
  {
    RenderedIsTarget(target);
  }

  /**
    A plan with an absolute link into the base whose target is not planned, which is what the
    dangling strategy plans, never becomes a manifest: its target is taken for a manifest path.
   */
  lemma DanglingNeverBuilds(base: Path, entries: seq<Entry>, i: nat, target: Path)
    requires Canonical(base) && forall j :: 0 <= j < |entries| ==> Canonical(entries[j].path)
    requires i < |entries| && entries[i].SymlinkEntry? && entries[i].target == Render(target)
    requires Canonical(target) && base <= target && target !in PathsOf(entries)
    requires FromPlan(base, entries).Some?
    ensures var converted := Manifest.NormalEntries(FromPlan(base, entries).value);
            converted.None? || !Manifest.Structured(converted.value)
  {
    var m := FromPlan(base, entries).value;
    FromPlanAt(base, entries, i);
    if Manifest.NormalEntries(m).Some? {
      var n := Manifest.NormalEntries(m).value;
      NormalEntriesAt(m, i);
      InsideTarget(base, entries[i], target);
      hide NormalEntry, FromPlanned, Manifest.NormalEntries, FromPlan, Render, Manifest.Placed;
      forall j | 0 <= j < |n| ensures n[j].path != n[i].linkTarget {
        FromPlanAt(base, entries, j);
        NormalEntriesAt(m, j);
        ConvertedPath(base, entries[j]);
        OtherPath(base, entries[j].path, target);
        assert entries[j] in entries && entries[j].path in PathsOf(entries);
      }
      assert !Manifest.PathAt(n, n[i].linkTarget);
      assert !Manifest.LinksResolve(n, n[i]);
    }
  }

  lemma OtherPath(base: Path, p: Path, q: Path)
    requires Canonical(p) && Canonical(q) && base <= p && base <= q
    ensures Render(p[|base|..]) == Render(q[|base|..]) ==> p == q
  {
    if Render(p[|base|..]) == Render(q[|base|..]) {
      RenderInjective(p[|base|..], q[|base|..]);
      assert p == base + p[|base|..] && q == base + q[|base|..];
    }
  }
}
