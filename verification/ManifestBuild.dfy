/**
  manifest.go's `BuildScenarioManifest` as a whole: from a plan and a stream of operations to a
  sealed manifest. For which plans it succeeds, and that what it returns verifies.
 */
module ManifestBuild {
  import opened Wrappers
  import opened Strings
  import opened Sorting
  import opened Paths
  import opened Operations
  import ContentPatterns
  import opened PlanSpec
  import PlanApply
  import opened NormalLists
  import opened ManifestEntries
  import opened ManifestPaths
  import opened ManifestPlan
  import opened ManifestReplay
  import opened ManifestShapes
  import opened Manifest

  // ---------------------------------------------------------------- which entries convert

  /** Owners are not negative, attribute names have a namespace, and every ACL text is acceptable once trimmed. */
  predicate MetadataConverts(metadata: Metadata) {
    && (metadata.owner.Some? ==> metadata.owner.value.0 >= 0 && metadata.owner.value.1 >= 0)
    && (metadata.xattrs.Some? ==> forall name :: name in metadata.xattrs.value ==> ValidateXAttrName(name).Ok?)
    && (metadata.acl.Some? ==> forall t :: t in metadata.acl.value ==> ACLTextOk(Trim(t)))
  }

  /** Extents stay inside the file, and a repeated block is there when it is needed. */
  predicate ContentConverts(c: Content) {
    && c.logicalSize >= 0
    && (forall e :: e in c.sparseExtents + c.overwriteExtents ==> ContentPatterns.Inside(e, c.logicalSize))
    && (c.pattern == RepeatedBlocks && c.logicalSize > 0 ==> c.repeatedBlock != [])
  }

  /**
    The entries that convert: they and their sources lie at or below the base, and a link target is
    not blank and cleans to a path without NUL when it is absolute and inside the base.
   */
  predicate EntryConverts(base: Path, e: Entry) {
    base <= e.path &&
    match e
    case DirEntry(_, _, metadata) => MetadataConverts(metadata)
    case FileEntry(_, _, _, content, metadata) => MetadataConverts(metadata) && (content.Some? ==> ContentConverts(content.value))
    case SymlinkEntry(_, target, metadata) =>
      MetadataConverts(metadata) && Trim(target) != "" && (Inside(base, target) ==> Canonical(Clean(target)))
    case HardlinkEntry(_, source) => base <= source
    case SpecialEntry(_, _, _, _, _, metadata) => MetadataConverts(metadata)
  }

  lemma AttributesConvert(m: map<string, seq<Byte>>)
    ensures NormalXAttrs(Listing(m)).Some? <==> forall name :: name in m ==> ValidateXAttrName(name).Ok?
  {
    ListingLists(m);
    forall name | name in m ensures Pair(name, m[name]) in Listing(m) {}
    hide UniqueNames, Listing, ValidateXAttrName, Sort;
  }

  lemma TextsConvert(acl: seq<string>)
    ensures NormalACL(acl).Some? <==> forall t :: t in acl ==> ACLTextOk(Trim(t))
  {
    hide Trim, ACLTextOk, Deduplicated, Sort;
    forall t | t in acl ensures Trim(t) in Trims(acl) {
      var i :| 0 <= i < |acl| && acl[i] == t;
      assert Trims(acl)[i] == Trim(t);
    }
    forall t | t in Trims(acl) ensures exists u :: u in acl && Trim(u) == t {
      var i :| 0 <= i < |acl| && Trims(acl)[i] == t;
      assert acl[i] in acl;
    }
  }

  lemma MetadataConversion(metadata: Metadata)
    ensures FromConfig(metadata).Some? <==> MetadataConverts(metadata)
  {
    if metadata.xattrs.Some? { AttributesConvert(metadata.xattrs.value); }
    if metadata.acl.Some? { TextsConvert(metadata.acl.value); }
    assert NormalXAttrs([]) == Some([]) && NormalACL([]) == Some([]);
    hide NormalXAttrs, NormalACL, Listing, ACLTextOk, ValidateXAttrName, Trim;
  }

  lemma ContentConversion(content: Option<Content>)
    ensures FromContent(content).Some? <==> (content.Some? ==> ContentConverts(content.value))
  {
    if content.Some? {
      var c := content.value;
      ExtentsConvert(c.sparseExtents, c.overwriteExtents, c.logicalSize);
      hide ContentPatterns.Inside;
    }
  }

  lemma ExtentsConvert(s: seq<Extent>, t: seq<Extent>, size: int)
    ensures (forall e :: e in s + t ==> ContentPatterns.Inside(e, size)) <==>
            ((forall i :: 0 <= i < |s| ==> ContentPatterns.Inside(s[i], size))
             && (forall i :: 0 <= i < |t| ==> ContentPatterns.Inside(t[i], size)))
  {
    hide ContentPatterns.Inside;
    if forall e :: e in s + t ==> ContentPatterns.Inside(e, size) {
      forall i | 0 <= i < |s| ensures ContentPatterns.Inside(s[i], size) { assert s[i] in s + t; }
      forall i | 0 <= i < |t| ensures ContentPatterns.Inside(t[i], size) { assert t[i] in s + t; }
    }
  }

  lemma TargetConversion(base: Path, target: string)
    requires Canonical(base)
    ensures TryTranslate(Render(base), target).Some? <==> Trim(target) != "" && (Inside(base, target) ==> Canonical(Clean(target)))
  {
    if Trim(target) != "" {
      TranslateCases(base, target);
      hide TryTranslate, Clean, Render, Trim;
    }
  }

  lemma Converted(base: Path, e: Entry)
    requires Canonical(base) && CanonicalEntry(e)
    ensures FromPlanned(base, e).Some? <==> EntryConverts(base, e)
  {
    ToManifest(base, e.path);
    hide PlanPathToManifestPath, FromConfig, FromContent, TryTranslate, Render, Clean, Trim, MetadataConverts, ContentConverts, Blank;
    match e
    case DirEntry(_, _, metadata) => MetadataConversion(metadata);
    case FileEntry(_, _, _, content, metadata) =>
      MetadataConversion(metadata);
      ContentConversion(content);
    case SymlinkEntry(_, target, metadata) =>
      MetadataConversion(metadata);
      TargetConversion(base, target);
    case HardlinkEntry(_, source) => ToManifest(base, source);
    case SpecialEntry(_, _, _, _, _, metadata) => MetadataConversion(metadata);
  }

  lemma {:induction false} AllConvert(base: Path, entries: seq<Entry>)
    requires Canonical(base) && forall e :: e in entries ==> CanonicalEntry(e)
    ensures FromPlan(base, entries).Some? <==> forall e :: e in entries ==> EntryConverts(base, e)
    decreases entries
  {
    hide FromPlanned, EntryConverts, CanonicalEntry;
    if entries != [] {
      var front, last := entries[..|entries| - 1], entries[|entries| - 1];
      AllConvert(base, front);
      Converted(base, last);
      assert entries == front + [last];
      assert forall e :: e in entries <==> e in front || e == last;
    }
  }

  // ---------------------------------------------------------------- which entries normalise

  /** Metadata that says nothing, the form special files have to have. */
  predicate SaysNothing(metadata: Metadata) {
    && metadata.owner.None? && metadata.times.None?
    && (metadata.xattrs.Some? ==> metadata.xattrs.value == map[]) && (metadata.acl.Some? ==> metadata.acl.value == [])
  }

  /**
    The entries a normal manifest takes: only the base directory may have mode 0, a literal link
    target has no NUL, a file has data or a content but not both, special files have non-negative
    numbers and nothing to say about metadata.
   */
  predicate EntryAccepted(base: Path, e: Entry) {
    match e
    case DirEntry(p, mode, _) => ModeKept(mode) || (p == base && mode == 0)
    case FileEntry(p, mode, data, content, _) => p != base && ModeKept(mode) && (content.None? || data == [])
    case SymlinkEntry(p, target, _) => p != base && (Inside(base, target) || NUL !in target)
    case HardlinkEntry(p, source) => p != base && source != base && source != p
    case SpecialEntry(p, mode, kind, major, minor, metadata) =>
      p != base && ModeKept(mode) && major >= 0 && minor >= 0 && SaysNothing(metadata)
  }

  lemma NothingSaid(metadata: Metadata)
    requires FromConfig(metadata).Some?
    ensures FromConfig(metadata) == Some(None) <==> SaysNothing(metadata)
  {
    assert NormalXAttrs([]) == Some([]) && NormalACL([]) == Some([]);
    if metadata != NO_METADATA {
      var xattrs := if metadata.xattrs.Some? then Listing(metadata.xattrs.value) else [];
      var acl := if metadata.acl.Some? then metadata.acl.value else [];
      hide NormalXAttrs, NormalACL;
      assert NormalXAttrs(xattrs).Some? && NormalACL(acl).Some?;
      if metadata.xattrs.Some? { SortedListing(metadata.xattrs.value); }
      NormalACLEmpty(acl);
      hide Listing;
    }
  }

  lemma AcceptedNormalizes(base: Path, e: Entry)
    requires Canonical(base) && CanonicalEntry(e) && FromPlanned(base, e).Some?
    ensures NormalEntry(FromPlanned(base, e).value).Some? <==> EntryAccepted(base, e)
  {
    match e
    case DirEntry(_, _, _) =>
      DirNormal(base, e);
      hide FromPlanned, NormalEntry;
    case FileEntry(_, _, _, _, _) =>
      FileNormal(base, e);
      hide FromPlanned, NormalEntry;
    case SymlinkEntry(_, _, _) =>
      SymlinkNormal(base, e);
      SymlinkConverted(base, e);
      TranslatedTarget(base, e.target);
      hide FromPlanned, NormalEntry, FromConfig, Render, Clean;
    case HardlinkEntry(_, _) =>
      HardlinkNormal(base, e);
      hide FromPlanned, NormalEntry;
    case SpecialEntry(_, _, _, _, _, metadata) =>
      SpecialNormal(base, e);
      SpecialShape(base, e);
      NothingSaid(metadata);
      hide FromPlanned, NormalEntry, FromConfig, Render, Blank, SaysNothing;
  }

  lemma {:induction false} AllAccepted(base: Path, entries: seq<Entry>)
    requires Canonical(base) && FromPlan(base, entries).Some? && forall e :: e in entries ==> CanonicalEntry(e)
    ensures NormalEntries(FromPlan(base, entries).value).Some? <==> forall e :: e in entries ==> EntryAccepted(base, e)
    decreases entries
  {
    hide FromPlanned, NormalEntry, EntryAccepted, CanonicalEntry;
    if entries != [] {
      var front, last := entries[..|entries| - 1], entries[|entries| - 1];
      AllAccepted(base, front);
      AcceptedNormalizes(base, last);
      var m := FromPlan(base, entries).value;
      assert m[..|m| - 1] == FromPlan(base, front).value;
      assert entries == front + [last];
      assert forall e :: e in entries <==> e in front || e == last;
    }
  }

  // ---------------------------------------------------------------- capabilities

  /** The names deriveScenarioManifestCapabilities gives are known and trimmed. */
  lemma NeedsAreKnown(entries: seq<ManifestEntry>, ops: seq<RawOperation>)
    ensures forall c :: c in Needs(entries, ops) ==> c in CAPABILITIES && Trimmed(c)
  {
  }

  lemma DerivedNormal(capabilities: seq<string>, entries: seq<ManifestEntry>, ops: seq<RawOperation>)
    requires forall c :: c in capabilities <==> c in Needs(entries, ops)
    requires Distinct(capabilities) && Sorted(Leq, capabilities)
    ensures NormalCapabilities(capabilities) == Some(capabilities)
  {
    NeedsAreKnown(entries, ops);
    TrimsOfTrimmed(capabilities);
    StringOrder();
    SortFixpoint(Leq, capabilities);
    hide Needs, Trim, Trimmed, Distinct, Sorted, Sort;
  }

  // ---------------------------------------------------------------- the whole

  /** The plans and streams that make a manifest. */
  ghost predicate Buildable(base: Path, entries: seq<Entry>, ops: seq<RawOperation>) {
    && NormalOperations(ops).Some? && entries != []
    && (forall e :: e in entries ==> EntryConverts(base, e) && EntryAccepted(base, e)) && LinksInside(base, entries)
  }

  /** The entries of a plan that make a manifest with the required structure. */
  lemma EntriesBuild(base: Path, entries: seq<Entry>, m: seq<ManifestEntry>)
    requires Canonical(base) && WellFormedPlan(base, entries) && FromPlan(base, entries) == Some(m)
    ensures NormalEntries(m).Some? && Structured(NormalEntries(m).value) <==>
            entries != [] && (forall e :: e in entries ==> EntryConverts(base, e) && EntryAccepted(base, e)) && LinksInside(base, entries)
  {
    EntriesCanonical(base, entries);
    AllConvert(base, entries);
    AllAccepted(base, entries);
    if NormalEntries(m).Some? {
      if entries != [] { StructureOfPlan(base, entries, NormalEntries(m).value); } else { EmptyPlan(base); }
    }
    hide NormalEntries, Structured, FromPlan, LinksInside, EntryAccepted, EntryConverts, WellFormedPlan, CanonicalEntry;
  }

  lemma RawNormal(base: Path, entries: seq<Entry>, ops: seq<RawOperation>, raw: Scenario)
    requires Canonical(base) && WellFormedPlan(base, entries) && FromPlan(base, entries) == Some(raw.entries)
    requires NormalOperations(ops) == Some(raw.operations) && HeaderOk(raw) && raw.settings == []
    requires NormalCapabilities(raw.capabilities) == Some(raw.capabilities)
    requires forall c :: c in raw.capabilities <==> c in Needs(raw.entries, raw.operations)
    ensures Normal(raw).Some? <==> Buildable(base, entries, ops)
  {
    EntriesBuild(base, entries, raw.entries);
    OperationsIdempotent(ops);
    NoSettings();
    if NormalEntries(raw.entries).Some? { NormalNeedsNoMore(raw.entries, raw.operations); }
    hide NormalSettings, NormalCapabilities, NormalEntries, NormalOperations, Structured, Needs, Lower, Trim, FromPlan, LinksInside,
      EntryAccepted, EntryConverts, WellFormedPlan;
  }

  lemma NoSettings()
    ensures NormalSettings([]) == Some([])
  {
  }

  lemma EmptyPlan(base: Path)
    ensures FromPlan(base, []) == Some([]) && NormalEntries([]) == Some([]) && !Structured([])
  {
  }

  lemma SealedVerifies(digest: Digest, raw: Scenario)
    requires YieldsHex(digest) && Normal(raw).Some?
    ensures var sealed := Sealed(digest, Normal(raw).value); Verified(digest, sealed) && Normal(sealed) == Some(sealed)
  {
    hide Normal, Sealed, Verified, YieldsHex;
    NormalIdempotent(raw);
    SealVerifies(digest, Normal(raw).value);
    SealedIsNormal(digest, Normal(raw).value);
  }

  lemma NotBuildable(base: Path, entries: seq<Entry>, ops: seq<RawOperation>)
    requires Canonical(base) && WellFormedPlan(base, entries) && (NormalOperations(ops).None? || FromPlan(base, entries).None?)
    ensures !Buildable(base, entries, ops)
  {
    EntriesCanonical(base, entries);
    AllConvert(base, entries);
    hide NormalOperations, FromPlan, EntryConverts, EntryAccepted, CanonicalEntry, WellFormedPlan, LinksInside;
  }

  /**
    BuildScenarioManifest, given what its loop over the planned entries converts. A well-formed
    plan makes a manifest exactly when the operations normalise, every entry converts and is
    acceptable, and every absolute link into the base leads to a planned path; and the manifest
    is normal and verifies.
   */
  method BuildScenarioManifest(digest: Digest, base: Path, ghost entries: seq<Entry>, converted: Option<seq<ManifestEntry>>,
                               ops: seq<RawOperation>, seed: int, mode: PlanApply.RunMode, planEntryLimit: int)
      returns (result: Option<Scenario>)
    requires Canonical(base) && WellFormedPlan(base, entries) && converted == FromPlan(base, entries)
    requires YieldsHex(digest) && !mode.UnknownMode? && planEntryLimit > 0
    ensures result.Some? <==> Buildable(base, entries, ops)
    ensures result.Some? ==> Verified(digest, result.value) && Normal(result.value) == result
    ensures result.Some? ==> converted.Some? && NormalEntries(converted.value) == Some(result.value.entries)
    ensures result.Some? ==> NormalOperations(ops) == Some(result.value.operations)
  {
    hide *;
    hide Canonical, WellFormedPlan, FromPlan, YieldsHex, Buildable, Verified, Normal, NormalEntries, NormalOperations, Needs, Sealed,
      Distinct, Sorted, NormalCapabilities;
    var normalizedOps := NormalizeOperations(ops);
    if normalizedOps.None? || converted.None? {
      NotBuildable(base, entries, ops);
      return None;
    }
    var capabilities := DeriveCapabilities(converted.value, normalizedOps.value);
    DerivedNormal(capabilities, converted.value, normalizedOps.value);
    var raw := Scenario(VERSION_MIN, seed, mode, planEntryLimit, [], converted.value, normalizedOps.value, capabilities, "", "");
    HeaderIsOk(raw);
    RawNormal(base, entries, ops, raw);
    var normalized := NormalizeManifest(raw);
    if normalized.None? { return None; }
    SealedVerifies(digest, raw);
    SealedParts(digest, raw, ops);
    return Some(Sealed(digest, normalized.value));
  }

  lemma HeaderIsOk(raw: Scenario)
    requires raw.version == VERSION_MIN && !raw.runMode.UnknownMode? && raw.planEntryLimit > 0
    ensures HeaderOk(raw)
  {
  }

  lemma SealedParts(digest: Digest, raw: Scenario, ops: seq<RawOperation>)
    requires Normal(raw).Some? && NormalOperations(ops) == Some(raw.operations)
    ensures var sealed := Sealed(digest, Normal(raw).value);
            NormalEntries(raw.entries) == Some(sealed.entries) && sealed.operations == raw.operations
  {
    OperationsIdempotent(ops);
    hide NormalSettings, NormalCapabilities, NormalEntries, NormalOperations, Structured, Needs, Lower, Trim;
  }
}
