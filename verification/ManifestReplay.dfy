/**
  manifest.go from plan to plan: an entry is converted, normalised with its manifest, and
  converted back when the manifest is applied. Which entries come back unchanged, and which plans.
 */
module ManifestReplay {
  import opened Wrappers
  import opened Strings
  import opened Paths
  import opened Operations
  import opened FileSystem
  import opened PlanSpec
  import opened ManifestEntries
  import opened ManifestPaths
  import opened ManifestPlan

  /** Build and apply, for one entry: none when it is rejected on the way. */
  ghost function Replay(base: Path, e: Entry): Option<Entry> {
    var m := FromPlanned(base, e);
    if m.None? then None
    else
      var n := NormalEntry(m.value);
      if n.None? then None else ToPlanned(base, n.value)
  }

  predicate ModeKept(mode: nat) {
    0 < mode <= MAX_POSIX_FILE_MODE
  }

  /**
    The entries a manifest can carry: only the base directory may have mode 0, links and special
    files have no metadata, a file has data or a content but not both, only devices have numbers,
    a hard link has another source, and metadata and link targets read the same afterwards.
   */
  ghost predicate EntryReplayable(base: Path, e: Entry) {
    match e
    case DirEntry(p, mode, metadata) =>
      (ModeKept(mode) || (p == base && mode == 0)) && Replayable(metadata)
    case FileEntry(p, mode, data, content, metadata) =>
      p != base && ModeKept(mode) && (content.None? || data == []) && Replayable(metadata)
    case SymlinkEntry(p, target, metadata) =>
      p != base && metadata == NO_METADATA && NUL !in target && TargetKept(base, target)
    case HardlinkEntry(p, source) =>
      p != base && source != base && source != p
    case SpecialEntry(p, mode, kind, major, minor, metadata) =>
      p != base && ModeKept(mode) && metadata == NO_METADATA && major >= 0 && minor >= 0
      && (IsDevice(kind) || (major == 0 && minor == 0))
  }

  // ---------------------------------------------------------------- what normalisation does to a converted entry

  lemma ConfigStable(metadata: Metadata)
    requires FromConfig(metadata).Some?
    ensures NormalMetadata(FromConfig(metadata).value) == FromConfig(metadata)
  {
    NoMetadataIsNormal();
    if metadata != NO_METADATA {
      var raw := ManifestMetadata(
        metadata.owner, metadata.times,
        if metadata.xattrs.Some? then Listing(metadata.xattrs.value) else [],
        if metadata.acl.Some? then metadata.acl.value else []);
      MetadataIdempotent(Some(raw));
      hide NormalMetadata;
    }
  }

  lemma BareIsRoot(base: Path, p: Path)
    requires Canonical(p) && base <= p
    ensures Render(p[|base|..]) == ROOT <==> p == base
  {
    if p != base { NotRootNotEmpty(p[|base|..]); }
  }

  /** The path of a converted entry is below the base, in normal form. */
  ghost predicate PathKept(base: Path, e: Entry, m: ManifestEntry) {
    && base <= e.path && m.path == Render(e.path[|base|..]) && (m.path == ROOT <==> e.path == base)
    && NormalPath(m.path, e.DirEntry?) == (if e.path == base && !e.DirEntry? then None else Some(m.path))
    && (m.kind.DirType? <==> e.DirEntry?)
  }

  lemma PathStable(base: Path, e: Entry)
    requires Canonical(base) && Canonical(e.path) && FromPlanned(base, e).Some?
    ensures PathKept(base, e, FromPlanned(base, e).value)
  {
    ConvertedHead(base, e);
    hide FromPlanned, Render, PlanPathToManifestPath, NormalPath, Canonical;
    ToManifest(base, e.path);
    RestIsCanonical(base, e.path);
    BareIsRoot(base, e.path);
    PathVerdict(e.path[|base|..], e.DirEntry?);
  }

  lemma RestIsCanonical(base: Path, p: Path)
    requires Canonical(p)
    ensures base <= p ==> Canonical(p[|base|..]) && (p[|base|..] == [] <==> p == base)
  {
  }

  lemma PathVerdict(q: Path, allowRoot: bool)
    requires Canonical(q)
    ensures NormalPath(Render(q), allowRoot) == if q == [] && !allowRoot then None else Some(Render(q))
  {
    if q == [] && !allowRoot {
      CleanRender(q);
    } else {
      NormalizePathFixpoint(q, allowRoot);
    }
  }

  /** Normalising an entry whose path is kept: only its body decides. */
  lemma NormalWithPath(base: Path, e: Entry, m: ManifestEntry)
    requires PathKept(base, e, m)
    ensures NormalEntry(m) ==
      if (e.path == base && !e.DirEntry?) || m.mode > MAX_POSIX_FILE_MODE then None else NormalBody(m, m.path)
  {
    hide NormalPath, NormalBody, Render;
  }

  lemma DirShape(base: Path, e: Entry)
    requires e.DirEntry? && FromPlanned(base, e).Some?
    ensures var m := FromPlanned(base, e).value;
      m == Blank(DirType, m.path, e.mode).(metadata := m.metadata) && FromConfig(e.metadata) == Some(m.metadata)
  {
    hide PlanPathToManifestPath, TryTranslate, Render, FromConfig, FromContent;
  }

  lemma FileShape(base: Path, e: Entry)
    requires e.FileEntry? && FromPlanned(base, e).Some?
    ensures var m := FromPlanned(base, e).value;
      m == Blank(FileType, m.path, e.mode).(data := e.data, content := m.content, metadata := m.metadata)
      && FromConfig(e.metadata) == Some(m.metadata) && FromContent(e.content) == Some(m.content)
  {
    hide PlanPathToManifestPath, TryTranslate, Render, FromConfig, FromContent;
  }

  lemma HardlinkShape(base: Path, e: Entry)
    requires e.HardlinkEntry? && FromPlanned(base, e).Some?
    ensures var m := FromPlanned(base, e).value;
      m == Blank(HardlinkType, m.path, 0).(sourcePath := m.sourcePath)
      && PlanPathToManifestPath(Render(base), Render(e.source)) == Some(m.sourcePath)
  {
    hide PlanPathToManifestPath, TryTranslate, Render, FromConfig, FromContent;
  }

  lemma SpecialShape(base: Path, e: Entry)
    requires e.SpecialEntry? && FromPlanned(base, e).Some?
    ensures var m := FromPlanned(base, e).value;
      m == Blank(SpecialFileType, m.path, e.mode).(special := Some(SpecialFile(Some(e.kind), e.major, e.minor)), metadata := m.metadata)
      && FromConfig(e.metadata) == Some(m.metadata)
      && PlanPathToManifestPath(Render(base), Render(e.path)) == Some(m.path)
  {
    hide PlanPathToManifestPath, TryTranslate, Render, FromConfig, FromContent;
  }

  lemma DirNormal(base: Path, e: Entry)
    requires Canonical(base) && Canonical(e.path) && e.DirEntry? && FromPlanned(base, e).Some?
    ensures var m := FromPlanned(base, e).value;
      NormalEntry(m) == if ModeKept(e.mode) || (e.path == base && e.mode == 0) then Some(m) else None
  {
    var m := FromPlanned(base, e).value;
    PathStable(base, e);
    ConfigStable(e.metadata);
    DirShape(base, e);
    hide NormalPath, NormalMetadata, FromConfig, Render, FromPlanned, NormalEntry;
    NormalWithPath(base, e, m);
  }

  lemma ContentStable(content: Option<Content>)
    requires FromContent(content).Some?
    ensures NormalContent(FromContent(content).value) == FromContent(content) && (FromContent(content).value.Some? <==> content.Some?)
  {
    hide ContentOk;
  }

  lemma FileNormal(base: Path, e: Entry)
    requires Canonical(base) && Canonical(e.path) && e.FileEntry? && FromPlanned(base, e).Some?
    ensures var m := FromPlanned(base, e).value;
      NormalEntry(m) == if e.path != base && ModeKept(e.mode) && (e.content.None? || e.data == []) then Some(m) else None
  {
    var m := FromPlanned(base, e).value;
    PathStable(base, e);
    FileShape(base, e);
    ConfigStable(e.metadata);
    ContentStable(e.content);
    hide NormalPath, NormalMetadata, NormalContent, FromConfig, FromContent, Render, FromPlanned, NormalEntry;
    NormalWithPath(base, e, m);
  }

  lemma HardlinkBody(m: ManifestEntry)
    requires m == Blank(HardlinkType, m.path, 0).(sourcePath := m.sourcePath)
    requires NormalPath(m.sourcePath, false).Some? ==> NormalPath(m.sourcePath, false).value == m.sourcePath
    ensures NormalBody(m, m.path) == if NormalPath(m.sourcePath, false).None? || m.sourcePath == m.path then None else Some(m)
  {
    hide NormalPath, NormalMetadata;
  }

  lemma HardlinkNormal(base: Path, e: Entry)
    requires Canonical(base) && Canonical(e.path) && e.HardlinkEntry? && Canonical(e.source) && FromPlanned(base, e).Some?
    ensures var m := FromPlanned(base, e).value;
      NormalEntry(m) == if e.path != base && e.source != base && e.source != e.path then Some(m) else None
  {
    var m := FromPlanned(base, e).value;
    HardlinkShape(base, e);
    PathStable(base, e);
    SourceStable(base, e.source);
    SourceDiffers(base, e.path, e.source);
    HardlinkBody(m);
    hide NormalPath, NormalBody, Render, PlanPathToManifestPath, FromPlanned, NormalEntry, Canonical, Blank;
    NormalWithPath(base, e, m);
  }

  lemma SourceStable(base: Path, source: Path)
    requires Canonical(base) && Canonical(source) && PlanPathToManifestPath(Render(base), Render(source)).Some?
    ensures var s := PlanPathToManifestPath(Render(base), Render(source)).value;
      base <= source && s == Render(source[|base|..]) && NormalPath(s, false) == if source == base then None else Some(s)
  {
    hide NormalPath, Render, PlanPathToManifestPath, Canonical;
    ToManifest(base, source);
    RestIsCanonical(base, source);
    PathVerdict(source[|base|..], false);
  }

  lemma SourceDiffers(base: Path, p: Path, source: Path)
    requires Canonical(p) && Canonical(source)
    ensures base <= p && base <= source ==> (Render(p[|base|..]) == Render(source[|base|..]) <==> p == source)
  {
    if base <= p && base <= source { OtherPath(base, p, source); }
  }

  lemma SpecialBody(m: ManifestEntry)
    requires m.kind == SpecialFileType && m.special.Some? && NormalMetadata(m.metadata) == Some(m.metadata)
    requires m == Blank(SpecialFileType, m.path, m.mode).(special := m.special, metadata := m.metadata)
    ensures NormalBody(m, m.path) ==
      if m.mode == 0 || NormalSpecial(m.special.value).None? || m.metadata.Some? then None
      else Some(m.(special := NormalSpecial(m.special.value)))
  {
    hide NormalPath, NormalMetadata, NormalSpecial;
  }

  lemma SpecialNumbers(s: SpecialFile)
    ensures NormalSpecial(s).Some? <==> s.kind.Some? && s.major >= 0 && s.minor >= 0
    ensures NormalSpecial(s).Some? ==> NormalSpecial(s).value.kind == s.kind
    ensures NormalSpecial(s).Some? ==> (NormalSpecial(s).value == s <==> IsDevice(s.kind.value) || (s.major == 0 && s.minor == 0))
  {
  }

  lemma SpecialDecides(m: ManifestEntry, atBase: bool, s: SpecialFile)
    requires m.special == Some(s)
    requires NormalEntry(m) == if atBase || m.mode > MAX_POSIX_FILE_MODE then None else NormalBody(m, m.path)
    requires NormalBody(m, m.path) ==
      if m.mode == 0 || NormalSpecial(s).None? || m.metadata.Some? then None else Some(m.(special := NormalSpecial(s)))
    requires NormalSpecial(s).Some? <==> s.major >= 0 && s.minor >= 0
    ensures NormalEntry(m) ==
      if !atBase && ModeKept(m.mode) && s.major >= 0 && s.minor >= 0 && m.metadata.None?
      then Some(m.(special := NormalSpecial(s))) else None
  {
    hide NormalEntry, NormalBody, NormalSpecial;
  }

  lemma SpecialNormal(base: Path, e: Entry)
    requires Canonical(base) && Canonical(e.path) && e.SpecialEntry? && FromPlanned(base, e).Some?
    ensures var m := FromPlanned(base, e).value;
      NormalEntry(m) ==
        if e.path != base && ModeKept(e.mode) && e.major >= 0 && e.minor >= 0 && m.metadata.None?
        then Some(m.(special := NormalSpecial(m.special.value))) else None
  {
    var m := FromPlanned(base, e).value;
    PathStable(base, e);
    NormalWithPath(base, e, m);
    SpecialShape(base, e);
    ConfigStable(e.metadata);
    SpecialNumbers(SpecialFile(Some(e.kind), e.major, e.minor));
    hide *;
    SpecialBody(m);
    SpecialDecides(m, e.path == base, m.special.value);
  }

  lemma TargetStable(base: Path, target: string)
    requires Canonical(base) && TryTranslate(Render(base), target).Some?
    ensures var t := TryTranslate(Render(base), target).value;
      && (t.Some? ==> NormalTarget(t.value, ManifestPath) == Some((t.value, ManifestPath)))
      && (t.None? ==> NormalTarget(target, Literal) == if NUL in target then None else Some((target, Literal)))
  {
    assert Trim(target) != "";
    TranslateCases(base, target);
    if target[0] == '/' && base <= Clean(target) {
      var q := Clean(target)[|base|..];
      RenderedIsTarget(q);
      PathVerdict(q, true);
      hide Trim, NormalPath, TryTranslate, Clean, Render;
    }
  }

  lemma SymlinkNormal(base: Path, e: Entry)
    requires Canonical(base) && Canonical(e.path) && e.SymlinkEntry? && FromPlanned(base, e).Some?
    ensures var m := FromPlanned(base, e).value;
      NormalEntry(m) == if e.path != base && (m.targetType == ManifestPath || NUL !in e.target) then Some(m.(metadata := None)) else None
  {
    var m := FromPlanned(base, e).value;
    PathStable(base, e);
    NormalWithPath(base, e, m);
    SymlinkConverted(base, e);
    TargetStable(base, e.target);
    SymlinkShape(base, e);
    hide *;
    assert m.mode == 0;
    assert NormalBody(m, m.path) == if NormalTarget(m.linkTarget, m.targetType).None? then None else Some(m.(metadata := None));
  }

  lemma SymlinkShape(base: Path, e: Entry)
    requires e.SymlinkEntry? && FromPlanned(base, e).Some?
    ensures var m := FromPlanned(base, e).value;
      m.kind == SymlinkType && m == Blank(SymlinkType, m.path, 0).(metadata := m.metadata, linkTarget := m.linkTarget, targetType := m.targetType)
  {
    hide PlanPathToManifestPath, TryTranslate, Render, FromConfig, FromContent;
  }

  // ---------------------------------------------------------------- one entry

  ghost predicate Verdict(base: Path, e: Entry) {
    FromPlanned(base, e).Some? ==> (Replay(base, e) == Some(Replayed(e)) <==> EntryReplayable(base, e))
  }

  lemma DirReplays(base: Path, e: Entry)
    requires Canonical(base) && Canonical(e.path) && e.DirEntry?
    ensures Verdict(base, e)
  {
    if FromPlanned(base, e).Some? {
      DirNormal(base, e);
      ConversionRoundTrip(base, e);
    }
    hide FromPlanned, ToPlanned, NormalEntry, Replayable;
  }

  lemma FileReplays(base: Path, e: Entry)
    requires Canonical(base) && Canonical(e.path) && e.FileEntry?
    ensures Verdict(base, e)
  {
    if FromPlanned(base, e).Some? {
      FileNormal(base, e);
      ConversionRoundTrip(base, e);
    }
    hide FromPlanned, ToPlanned, NormalEntry, Replayable, WithoutPredictions;
  }

  lemma HardlinkReplays(base: Path, e: Entry)
    requires Canonical(base) && Canonical(e.path) && e.HardlinkEntry? && Canonical(e.source)
    ensures Verdict(base, e)
  {
    if FromPlanned(base, e).Some? {
      HardlinkNormal(base, e);
      ConversionRoundTrip(base, e);
    }
    hide FromPlanned, ToPlanned, NormalEntry;
  }

  /** Converting back a special file with the given numbers. */
  lemma SpecialReplanned(base: Path, m: ManifestEntry, path: string, s: SpecialFile)
    requires m.kind == SpecialFileType && m.special == Some(s) && s.kind.Some? && m.metadata.None?
    requires OperationPathToFS(Render(base), m.path) == Some(path)
    ensures ToPlanned(base, m) == Some(SpecialEntry(Clean(path), m.mode, s.kind.value, s.major, s.minor, NO_METADATA))
  {
    NothingToConvert();
    hide OperationPathToFS, Render, Clean, ToConfig, ToContent;
  }

  /** What comes back of a special file that passes. */
  lemma SpecialBack(base: Path, e: Entry)
    requires Canonical(base) && Canonical(e.path) && e.SpecialEntry? && FromPlanned(base, e).Some?
    requires NormalEntry(FromPlanned(base, e).value).Some?
    ensures var s := NormalSpecial(SpecialFile(Some(e.kind), e.major, e.minor));
      s.Some? && Replay(base, e) == Some(SpecialEntry(e.path, e.mode, e.kind, s.value.major, s.value.minor, NO_METADATA))
  {
    var m := FromPlanned(base, e).value;
    SpecialShape(base, e);
    SpecialNormal(base, e);
    PathRoundTrip(base, e.path);
    SpecialNumbers(SpecialFile(Some(e.kind), e.major, e.minor));
    hide FromPlanned, ToPlanned, NormalEntry, FromConfig, PlanPathToManifestPath, OperationPathToFS, Render, Clean, Canonical,
      NormalSpecial, Blank;
    SpecialReplanned(base, NormalEntry(m).value, Render(e.path), NormalSpecial(m.special.value).value);
  }

  lemma SpecialReplays(base: Path, e: Entry)
    requires Canonical(base) && Canonical(e.path) && e.SpecialEntry?
    ensures Verdict(base, e)
  {
    assert e.metadata == NO_METADATA ==> FromConfig(e.metadata) == Some(None);
    if FromPlanned(base, e).Some? {
      SpecialShape(base, e);
      SpecialNormal(base, e);
      SpecialNumbers(SpecialFile(Some(e.kind), e.major, e.minor));
      hide FromPlanned, NormalEntry, FromConfig, PlanPathToManifestPath, Render, Canonical, NormalSpecial, Blank;
      if NormalEntry(FromPlanned(base, e).value).Some? {
        SpecialBack(base, e);
        hide Replay;
      }
    }
  }

  /** What comes back of a link that passes. */
  lemma SymlinkBack(base: Path, e: Entry)
    requires Canonical(base) && Canonical(e.path) && e.SymlinkEntry? && e.path != base && FromPlanned(base, e).Some?
    requires NormalEntry(FromPlanned(base, e).value).Some?
    ensures TargetAfter(Render(base), e.target).Some?
    ensures Replay(base, e) == Some(SymlinkEntry(e.path, TargetAfter(Render(base), e.target).value, NO_METADATA))
  {
    var m := FromPlanned(base, e).value;
    SymlinkNormal(base, e);
    SymlinkConverted(base, e);
    PathRoundTrip(base, e.path);
    TargetRoundTrip(base, e.target);
    AfterTranslation(Render(base), e.target);
    NothingToConvert();
    hide FromPlanned, ToPlanned, NormalEntry, FromConfig, ToConfig, PlanPathToManifestPath, OperationPathToFS, Render, Clean,
      TryTranslate, TargetAfter, TargetKept, Canonical;
    SymlinkReplanned(base, m.(metadata := None), Render(e.path), TargetAfter(Render(base), e.target).value, NO_METADATA);
  }

  /** A target that is kept as a manifest path has no NUL. */
  lemma KeptTarget(base: Path, target: string)
    requires Canonical(base) && TryTranslate(Render(base), target).Some? && TargetKept(base, target)
    ensures TryTranslate(Render(base), target).value.Some? ==> NUL !in target
  {
    assert Trim(target) != "";
    TranslateCases(base, target);
    if target[0] == '/' && base <= Clean(target) {
      RenderedIsTarget(Clean(target));
      hide Trim, TryTranslate, Clean, Render;
    }
  }

  lemma SymlinkReplays(base: Path, e: Entry)
    requires Canonical(base) && Canonical(e.path) && e.SymlinkEntry?
    ensures Verdict(base, e)
  {
    if FromPlanned(base, e).Some? {
      SymlinkNormal(base, e);
      SymlinkConverted(base, e);
      TargetRoundTrip(base, e.target);
      if TargetKept(base, e.target) { KeptTarget(base, e.target); }
      hide FromPlanned, ToPlanned, NormalEntry, FromConfig, Render, TargetAfter, TargetKept, Canonical, TryTranslate,
        PlanPathToManifestPath;
      if NormalEntry(FromPlanned(base, e).value).Some? {
        SymlinkBack(base, e);
        hide Replay;
      }
    }
  }

  /**
    Plan to manifest and back through normalisation. An entry that converts comes back unchanged,
    up to the run-time predictions of its content, exactly when it is replayable.
   */
  lemma EntryRoundTrip(base: Path, e: Entry)
    requires Canonical(base) && Canonical(e.path) && (e.HardlinkEntry? ==> Canonical(e.source))
    requires FromPlanned(base, e).Some?
    ensures Replay(base, e) == Some(Replayed(e)) <==> EntryReplayable(base, e)
  {
    hide FromPlanned, Replay, Replayed, EntryReplayable;
    match e
    case DirEntry(_, _, _) => DirReplays(base, e);
    case FileEntry(_, _, _, _, _) => FileReplays(base, e);
    case SymlinkEntry(_, _, _) => SymlinkReplays(base, e);
    case HardlinkEntry(_, _) => HardlinkReplays(base, e);
    case SpecialEntry(_, _, _, _, _, _) => SpecialReplays(base, e);
  }
}
