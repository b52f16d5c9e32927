/**
  A coverage plan on a filesystem: what `enumerateCoveragePlan` promises is enough for
  `applyRunPlan` to succeed on an empty base and for the reported hard link groups to be real.
 */
module CoverageApply {
  import opened Paths
  import opened FileSystem
  import opened PlanSpec
  import opened CoveragePlan
  import opened CoverageACLs
  import AclResolve
  import opened CoverageBuilder
  import opened PlanApply
  import opened PlanGrowth
  import opened PlanLinks
  import opened Hardlinks

  /** applyACL goes through on lists that resolve, with default entries on directories only. */
  ghost predicate AcceptsResolvable(kernel: Kernel) {
    forall mode, isDir, acl :: AclResolve.Resolvable(acl) && (AclResolve.AnyDefault(acl) ==> isDir) ==>
      kernel.aclAllowed(mode, isDir, acl)
  }

  lemma PlannedListAccepted(kernel: Kernel, mode: nat, isDir: bool, acl: seq<string>)
    requires AcceptsResolvable(kernel) && acl in COVERAGE_ACLS && (acl == ACLFor(DEFAULT_ON_DIR) ==> isDir)
    ensures kernel.aclAllowed(mode, isDir, acl)
  {
    hide AclResolve.Resolvable, AclResolve.AnyDefault;
    CoverageListsResolve(acl);
  }

  lemma MetadataAccepted(kernel: Kernel, enabled: set<Capability>, mode: nat, isDir: bool, metadata: Metadata)
    requires AcceptsResolvable(kernel) && GatedMetadata(enabled, metadata) && (isDir || FileMetadata(enabled, metadata))
    ensures !RefusesACL(kernel, mode, isDir, metadata)
  {
    hide AcceptsResolvable, ACLFor;
    if metadata.acl.Some? { PlannedListAccepted(kernel, mode, isDir, metadata.acl.value); }
  }

  lemma AllowedIsApplicable(kernel: Kernel, enabled: set<Capability>, entries: seq<Entry>)
    requires AllAllowed(enabled, entries) && AcceptsResolvable(kernel)
    ensures AllApplicable(kernel, entries)
  {
    hide AcceptsResolvable, RefusesACL, ACLFor;
    forall e | e in entries ensures Applicable(kernel, e) {
      assert Allowed(enabled, e);
      match e
      case DirEntry(_, mode, metadata) => MetadataAccepted(kernel, enabled, mode, true, metadata);
      case FileEntry(_, mode, _, _, metadata) => MetadataAccepted(kernel, enabled, mode, false, metadata);
      case SpecialEntry(_, mode, _, _, _, metadata) => MetadataAccepted(kernel, enabled, mode, false, metadata);
      case _ =>
    }
  }

  /** Coverage plans apply, and links are shared exactly as reported. */
  lemma CoveragePlanApplies(kernel: Kernel, mode: RunMode, base: Path, fs: Fs, enabled: set<Capability>,
                            entries: seq<Entry>, groups: seq<Group>)
    requires WellFormedPlan(base, entries) && DescribesClasses(entries, groups) && AllAllowed(enabled, entries)
    requires AcceptsResolvable(kernel) && !mode.UnknownMode?
    requires base != [] && Healthy(fs) && Usable(Prepared(mode, base, fs), base)
    ensures ApplyPlan(kernel, mode, base, fs, entries).error.None?
    ensures SharedSets(ApplyPlan(kernel, mode, base, fs, entries).fs, base) == PlannedSets(base, groups)
  {
    AllowedIsApplicable(kernel, enabled, entries);
    PlannedGroupsAreObserved(kernel, mode, base, fs, entries, groups);
  }
}
