/**
  The random flow from end to end: plan.go's `planRun` and `applyRunPlan`, and diff/collect.go's
  groups on the result.
 */
module RandomFlow {
  import opened Wrappers
  import opened Sorting
  import opened Paths
  import opened FileSystem
  import opened PlanSpec
  import opened Planner
  import opened PlanApply
  import opened PlanGrowth
  import opened PlanLinks
  import opened Hardlinks

  /**
    Plan, apply, observe. For every draw, mode and filesystem the plan is well-formed and its
    groups are its classes, applying it is `ApplyPlan`, and the diff reports the shared files of
    what that leaves. So when the plan applies to an empty base the diff reports exactly the
    planned hard link groups.
   */
  method GenerateAndObserve(kernel: Kernel, mode: RunMode, base: Path, fs: Fs, entryLimit: int, explicitStrategy: bool,
                            deviceNumbersConfigured: bool)
      returns (planError: Option<PlanError>, applyError: Option<ApplyError>, planned: seq<Group>, observed: seq<seq<Path>>, after: Fs,
               ghost entries: seq<Entry>, ghost draw: DirDraw)
    requires Canonical(base) && base != [] && entryLimit > 0
    ensures WellFormedPlan(base, entries) && |entries| <= entryLimit && DescribesClasses(entries, planned)
    ensures planError.None? ==> SubtreePlanned(base, [], entries) && Follows(draw, base, 0, entries)
    ensures planError == Some(EntryLimitExceeded) ==> |entries| == entryLimit
    ensures planError.Some? ==> after == fs && applyError.None?
    ensures planError.None? ==>
      var finish := ApplyPlan(kernel, mode, base, fs, entries); after == finish.fs && applyError == finish.error
    ensures planError.None? && applyError.None? ==> MemberSets(observed) == SharedSets(after, base) && Sorted(FirstLeq, observed)
    ensures planError.None? && applyError.None? && Healthy(fs) && NothingBelow(Prepared(mode, base, fs), base) ==>
      MemberSets(observed) == PlannedSets(base, planned)
  {
    hide WellFormedPlan, DescribesClasses, ApplyPlan, Prepared, PlannedSets, SharedSets, MemberSets, Destination, SubtreePlanned, Follows;
    applyError, observed, after := None, [], fs;
    var plan, groups, retries, error;
    ghost var dangling;
    plan, groups, retries, error, dangling, draw := PlanRun(base, entryLimit, explicitStrategy, deviceNumbersConfigured);
    planError, planned, entries := error, groups, plan;
    assert plan[..|plan|] == plan;
    if error.Some? { return; }
    var runner := new PlanRunner(kernel, mode, base, fs);
    var finalized;
    finalized, applyError := runner.Run(plan);
    after := runner.fs;
    if applyError.Some? { return; }
    var walk := WalkBelow(after, base);
    observed := ReportHardlinkGroups(after, base, walk);
    if Healthy(fs) && NothingBelow(Prepared(mode, base, fs), base) {
      AppliedGroupsAreObserved(kernel, mode, base, fs, plan, groups);
    }
  }
}
