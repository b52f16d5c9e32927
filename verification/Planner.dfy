/**
  plan.go: the recursive planner. Draws are arbitrary: depths, counts, names, strategies and
  special types are whatever the configured generators return, and a drawn name only has to be
  a well-formed path component.
 */
module Planner {
  import opened Wrappers
  import opened Sorting
  import opened Paths
  import opened FileSystem
  import opened PlanSpec

  const MAX_PLAN_RETRIES := 128
  const CYCLE_LENGTH := 2

  datatype PlanError =
    | EntryLimitExceeded
    | PathCollisionExhausted
    | GeneratorFailed
    | SymlinkStrategyInvalid
    | SpecialTypeInvalid
    | DeviceNumbersRequired
    | DeviceNumberNegative

  /** A generator's special file type; the code 0 and codes past the last are invalid. */
  datatype DrawnSpecial = Known(kind: SpecialType) | UnknownSpecial(code: nat)

  method DrawInt() returns (n: int)
  {
    n :| true;
  }

  method DrawBool() returns (b: bool)
  {
    b :| true;
  }

  method DrawMode() returns (mode: nat)
  {
    mode :| true;
  }

  method DrawName() returns (name: string)
    ensures ValidName(name)
  {
    assert ValidName("a");
    name :| ValidName(name);
  }

  method DrawPath(choices: seq<Path>) returns (p: Path)
    requires choices != []
    ensures p in choices
  {
    assert choices[0] in choices;
    p :| p in choices;
  }

  method DrawStrategy() returns (strategy: Strategy)
  {
    strategy :| true;
  }

  method DrawSpecial() returns (special: DrawnSpecial)
  {
    special :| true;
  }

  /** resolveMetadata: value and ACL generators may fail. */
  method DrawMetadata() returns (metadata: Result<Metadata, PlanError>)
    ensures metadata.Err? ==> metadata.error == GeneratorFailed
  {
    var failure: Result<Metadata, PlanError> := Err(GeneratorFailed);
    assert failure.Err? ==> failure.error == GeneratorFailed;
    metadata :| metadata.Err? ==> metadata.error == GeneratorFailed;
  }

  /** A file's bytes or its content pattern; data generators may fail. */
  method DrawPayload() returns (payload: Result<(seq<Byte>, Option<Content>), PlanError>)
    ensures payload.Err? ==> payload.error == GeneratorFailed
  {
    var failure: Result<(seq<Byte>, Option<Content>), PlanError> := Err(GeneratorFailed);
    assert failure.Err? ==> failure.error == GeneratorFailed;
    payload :| payload.Err? ==> payload.error == GeneratorFailed;
  }

  /** plannedHardlinkGroup: shared by pointer between the group list and the path index. */
  class HardlinkGroup {
    const origin: Path
    var paths: seq<Path>

    constructor (origin: Path)
      ensures this.origin == origin && paths == [origin]
    {
      this.origin := origin;
      this.paths := [origin];
    }
  }

  ghost function ValuesOf(groups: seq<HardlinkGroup>): (values: seq<Group>)
    reads groups
    ensures |values| == |groups|
    ensures forall k :: 0 <= k < |values| ==> values[k] == Group(groups[k].origin, groups[k].paths)
  {
    seq(|groups|, k requires 0 <= k < |groups| reads groups => Group(groups[k].origin, groups[k].paths))
  }

  lemma ValuesSnoc(groups: seq<HardlinkGroup>, g: HardlinkGroup)
    ensures ValuesOf(groups + [g]) == ValuesOf(groups) + [Group(g.origin, g.paths)]
  {
  }

  /** What the planner has promised so far, on values. */
  ghost predicate PlanInvariant(base: Path, limit: int, entries: seq<Entry>, used: set<Path>, reserved: set<Path>,
                                lastPath: Option<Path>, filePaths: seq<Path>, symlinkPaths: seq<Path>, groups: seq<Group>)
  {
    && WellFormedPlan(base, entries) && |entries| <= limit
    && base in used && PathsOf(entries) <= used
    && reserved <= used && reserved !! PathsOf(entries)
    && (lastPath.Some? ==> lastPath.value in PathsOf(entries))
    && (forall p :: p in filePaths ==> p in RegularPaths(entries))
    && (forall p :: p in symlinkPaths ==> p in PathsOf(entries))
    && GroupsMatch(entries, groups)
  }

  lemma ClaimKeepsInvariant(base: Path, limit: int, entries: seq<Entry>, used: set<Path>, reserved: set<Path>,
                            lastPath: Option<Path>, filePaths: seq<Path>, symlinkPaths: seq<Path>, groups: seq<Group>, p: Path)
    requires PlanInvariant(base, limit, entries, used, reserved, lastPath, filePaths, symlinkPaths, groups)
    ensures PlanInvariant(base, limit, entries, used + {p}, reserved, lastPath, filePaths, symlinkPaths, groups)
    ensures p !in used ==> p !in PathsOf(entries) && p !in reserved
  {
    hide WellFormedPlan, GroupsMatch;
  }

  /** A claimed path below a planned directory may carry the next entry. */
  lemma ClaimedMayFollow(base: Path, entries: seq<Entry>, dir: Path, e: Entry)
    requires dir in DirPaths(entries) && base <= dir
    requires Canonical(e.path) && e.path != [] && Parent(e.path) == dir && e.path !in PathsOf(entries)
    requires e.HardlinkEntry? ==> e.source in RegularPaths(entries)
    ensures MayFollow(base, entries, e)
  {
    assert e.path == dir + [Last(e.path)];
  }

  /** Appending an entry at a claimed path keeps the invariant. */
  lemma AppendKeepsInvariant(base: Path, limit: int, entries: seq<Entry>, used: set<Path>, reserved: set<Path>,
                             lastPath: Option<Path>, filePaths: seq<Path>, symlinkPaths: seq<Path>, groups: seq<Group>, e: Entry)
    requires PlanInvariant(base, limit, entries, used, reserved, lastPath, filePaths, symlinkPaths, groups)
    requires |entries| < limit && MayFollow(base, entries, e) && !e.HardlinkEntry?
    requires e.path in used && e.path !in reserved
    ensures PlanInvariant(base, limit, entries + [e], used, reserved, lastPath, filePaths, symlinkPaths, groups)
  {
    hide MayFollow, WellFormedPlan, GroupsMatch;
    assert e.path !in PathsOf(entries) by { MayFollowFresh(base, entries, e); }
    WellFormedSnoc(base, entries, e);
    SnocPaths(entries, e);
    OtherEntryKeepsGroups(base, entries, groups, e);
  }

  lemma AppendLinkKeepsInvariant(base: Path, limit: int, entries: seq<Entry>, used: set<Path>, reserved: set<Path>,
                                 lastPath: Option<Path>, filePaths: seq<Path>, symlinkPaths: seq<Path>, groups: seq<Group>,
                                 link: Path, target: Path, next: seq<Group>)
    requires PlanInvariant(base, limit, entries, used, reserved, lastPath, filePaths, symlinkPaths, groups)
    requires |entries| < limit && MayFollow(base, entries, HardlinkEntry(link, target))
    requires link in used && link !in reserved && target in RegularPaths(entries)
    requires Registered(groups, target, link, next)
    ensures PlanInvariant(base, limit, entries + [HardlinkEntry(link, target)], used, reserved,
                          Some(link), filePaths + [link], symlinkPaths, next)
  {
    var e := HardlinkEntry(link, target);
    hide MayFollow, WellFormedPlan, GroupsMatch, Registered;
    MayFollowFresh(base, entries, e);
    WellFormedSnoc(base, entries, e);
    SnocPaths(entries, e);
    RegisterKeepsGroups(base, entries, groups, target, link, next);
  }

  lemma SymlinkPathKeepsInvariant(base: Path, limit: int, entries: seq<Entry>, used: set<Path>, reserved: set<Path>,
                                  lastPath: Option<Path>, filePaths: seq<Path>, symlinkPaths: seq<Path>, groups: seq<Group>, p: Path)
    requires PlanInvariant(base, limit, entries, used, reserved, lastPath, filePaths, symlinkPaths, groups)
    requires p in PathsOf(entries)
    ensures PlanInvariant(base, limit, entries, used, reserved, lastPath, filePaths, symlinkPaths + [p], groups)
  {
    hide WellFormedPlan, GroupsMatch;
  }

  lemma LastPathKeepsInvariant(base: Path, limit: int, entries: seq<Entry>, used: set<Path>, reserved: set<Path>,
                               lastPath: Option<Path>, filePaths: seq<Path>, symlinkPaths: seq<Path>, groups: seq<Group>, p: Path)
    requires PlanInvariant(base, limit, entries, used, reserved, lastPath, filePaths, symlinkPaths, groups)
    requires p in PathsOf(entries)
    ensures PlanInvariant(base, limit, entries, used, reserved, Some(p), filePaths, symlinkPaths, groups)
  {
    hide WellFormedPlan, GroupsMatch;
  }

  lemma FilePathKeepsInvariant(base: Path, limit: int, entries: seq<Entry>, used: set<Path>, reserved: set<Path>,
                               lastPath: Option<Path>, filePaths: seq<Path>, symlinkPaths: seq<Path>, groups: seq<Group>, p: Path)
    requires PlanInvariant(base, limit, entries, used, reserved, lastPath, filePaths, symlinkPaths, groups)
    requires p in RegularPaths(entries)
    ensures PlanInvariant(base, limit, entries, used, reserved, Some(p), filePaths + [p], symlinkPaths, groups)
  {
    hide WellFormedPlan, GroupsMatch;
    assert p in PathsOf(entries);
  }

  lemma ReserveKeepsInvariant(base: Path, limit: int, entries: seq<Entry>, used: set<Path>, reserved: set<Path>,
                              lastPath: Option<Path>, filePaths: seq<Path>, symlinkPaths: seq<Path>, groups: seq<Group>, p: Path)
    requires PlanInvariant(base, limit, entries, used, reserved, lastPath, filePaths, symlinkPaths, groups)
    requires p in used && p !in PathsOf(entries)
    ensures PlanInvariant(base, limit, entries, used, reserved + {p}, lastPath, filePaths, symlinkPaths, groups)
  {
    hide WellFormedPlan, GroupsMatch;
  }

  lemma LinkTargetIsRegular(base: Path, limit: int, entries: seq<Entry>, used: set<Path>, reserved: set<Path>,
                            lastPath: Option<Path>, filePaths: seq<Path>, symlinkPaths: seq<Path>, groups: seq<Group>, p: Path)
    requires PlanInvariant(base, limit, entries, used, reserved, lastPath, filePaths, symlinkPaths, groups)
    requires p in filePaths
    ensures p in RegularPaths(entries) && p in PathsOf(entries)
  {
    hide WellFormedPlan, GroupsMatch;
  }

  lemma GroupedPathsArePlanned(base: Path, limit: int, entries: seq<Entry>, used: set<Path>, reserved: set<Path>,
                               lastPath: Option<Path>, filePaths: seq<Path>, symlinkPaths: seq<Path>, groups: seq<Group>, p: Path)
    requires PlanInvariant(base, limit, entries, used, reserved, lastPath, filePaths, symlinkPaths, groups)
    ensures (exists k :: 0 <= k < |groups| && p in groups[k].paths) ==> p in PathsOf(entries)
  {
    if exists k :: 0 <= k < |groups| && p in groups[k].paths {
      var k :| 0 <= k < |groups| && p in groups[k].paths;
      assert GroupMatches(entries, groups[k]);
      assert p in Class(entries, groups[k].origin);
    }
  }

  /** Later plans extend earlier ones. */
  ghost predicate Grown(before: seq<Entry>, after: seq<Entry>) {
    before <= after
  }

  lemma NothingGrown(entries: seq<Entry>)
    ensures Grown(entries, entries)
  {
  }

  lemma GrownTransitive(a: seq<Entry>, b: seq<Entry>, c: seq<Entry>)
    requires Grown(a, b) && Grown(b, c)
    ensures Grown(a, c) && |a| <= |b| <= |c|
  {
  }

  lemma GrownDirs(before: seq<Entry>, after: seq<Entry>)
    requires Grown(before, after)
    ensures DirPaths(before) <= DirPaths(after) && PathsOf(before) <= PathsOf(after)
  {
    assert after == before + after[|before|..];
  }

  /** One link in `dir` has been planned, with the given target. */
  ghost predicate OneSymlink(before: seq<Entry>, after: seq<Entry>, dir: Path, target: string) {
    exists p: Path :: p != [] && Parent(p) == dir && after == before + [SymlinkEntry(p, target, NO_METADATA)]
  }

  /** Two links in `dir` that lead to each other. */
  ghost predicate TwoCycle(before: seq<Entry>, after: seq<Entry>, dir: Path) {
    exists p: Path, q: Path :: p != [] && q != [] && p != q && Parent(p) == dir && Parent(q) == dir
      && after == before + [SymlinkEntry(p, RelString(dir, q), NO_METADATA), SymlinkEntry(q, RelString(dir, p), NO_METADATA)]
  }

  ghost predicate LinksTo(choices: seq<Path>, before: seq<Entry>, after: seq<Entry>, dir: Path, form: Path -> string) {
    exists t :: t in choices && OneSymlink(before, after, dir, form(t))
  }

  /** What each strategy plans when it plans something; a dangling target is reserved. */
  ghost predicate StrategyPlanned(strategy: Strategy, dir: Path, before: seq<Entry>, after: seq<Entry>,
                                  filePaths: seq<Path>, symlinkPaths: seq<Path>, reservedBefore: set<Path>, reserved: set<Path>)
  {
    if strategy.Dangling? then
      exists t: Path :: Canonical(t) && t != [] && Parent(t) == dir
        && reserved == reservedBefore + {t} && OneSymlink(before, after, dir, Render(t))
    else
      reserved == reservedBefore
      && match strategy
         case Absolute => LinksTo(filePaths, before, after, dir, Render)
         case Relative => LinksTo(filePaths, before, after, dir, t => RelString(dir, t))
         case SelfReferential => exists p: Path :: p != [] && Parent(p) == dir && after == before + [SymlinkEntry(p, Last(p), NO_METADATA)]
         case Chained => LinksTo(symlinkPaths, before, after, dir, Render)
         case Cycle => TwoCycle(before, after, dir)
         case _ => false
  }

  /** A hard link in `dir` to one of the files planned before. */
  predicate LinkPlanned(e: Entry, dir: Path, filePaths: seq<Path>) {
    e.HardlinkEntry? && e.path != [] && Parent(e.path) == dir && e.source in filePaths
  }

  /** A special file in `dir`; only devices carry numbers. */
  ghost predicate OneSpecial(before: seq<Entry>, after: seq<Entry>, dir: Path, numbersConfigured: bool) {
    && |after| == |before| + 1 && before <= after
    && var e := after[|before|];
       e.SpecialEntry? && e.path != [] && Parent(e.path) == dir && e.metadata == NO_METADATA
       && (if IsDevice(e.kind) then numbersConfigured && e.major >= 0 && e.minor >= 0 else e.major == 0 && e.minor == 0)
  }

  /** A file in `dir`, and perhaps a relative link to it when no strategy is configured. */
  ghost predicate FilePlanned(before: seq<Entry>, after: seq<Entry>, dir: Path, explicitStrategy: bool) {
    && |after| > |before| && before <= after
    && var e := after[|before|];
       e.FileEntry? && e.path != [] && Parent(e.path) == dir
       && (after == before + [e] || (!explicitStrategy && OneSymlink(before + [e], after, dir, RelString(dir, e.path))))
  }

  /** What is drawn for a plain file. */
  datatype FileDraw = FileDraw(mode: nat, data: seq<Byte>, content: Option<Content>, metadata: Metadata, relative: bool)

  /** What is drawn for a file slot, in the order it is asked for. */
  datatype SlotDraw = SlotDraw(symlink: bool, strategy: Strategy, hardlink: bool, special: Option<SpecialType>, file: FileDraw)

  const NO_FILE := FileDraw(0, [], None, NO_METADATA, false)

  /** Whether there is something for a link of the strategy to lead to. */
  predicate Linkable(explicitStrategy: bool, strategy: Strategy, filePaths: seq<Path>, symlinkPaths: seq<Path>, lastPath: Option<Path>) {
    if !explicitStrategy then lastPath.Some?
    else match strategy
      case Absolute => filePaths != []
      case Relative => filePaths != []
      case Chained => symlinkPaths != []
      case _ => true
  }

  /** The planned file is the drawn one, with a link to it when one was drawn and no strategy is configured. */
  ghost predicate FileAsDrawn(draw: FileDraw, before: seq<Entry>, after: seq<Entry>, explicitStrategy: bool) {
    && |before| < |after| && before <= after
    && after[|before|] == FileEntry(after[|before|].path, draw.mode, draw.data, draw.content, draw.metadata)
    && (|after| > |before| + 1 <==> !explicitStrategy && draw.relative)
  }

  ghost predicate OnlyLinks(before: seq<Entry>, after: seq<Entry>) {
    |before| < |after| && before <= after && forall k :: |before| <= k < |after| ==> after[k].SymlinkEntry?
  }

  /** The slot holds the first thing drawn for it that is possible: a link, a hard link, a special file, else a file. */
  ghost predicate SlotFollows(draw: SlotDraw, before: seq<Entry>, after: seq<Entry>, explicitStrategy: bool,
                              filePaths: seq<Path>, symlinkPaths: seq<Path>, lastPath: Option<Path>)
  {
    if draw.symlink && Linkable(explicitStrategy, draw.strategy, filePaths, symlinkPaths, lastPath) then OnlyLinks(before, after)
    else if draw.hardlink && filePaths != [] then |after| == |before| + 1 && after[|before|].HardlinkEntry?
    else if draw.special.Some? then
      |after| == |before| + 1 && after[|before|].SpecialEntry? && after[|before|].kind == draw.special.value
    else FileAsDrawn(draw.file, before, after, explicitStrategy)
  }

  lemma StrategyOnlyLinks(strategy: Strategy, dir: Path, before: seq<Entry>, after: seq<Entry>,
                          filePaths: seq<Path>, symlinkPaths: seq<Path>, reservedBefore: set<Path>, reserved: set<Path>)
    requires StrategyPlanned(strategy, dir, before, after, filePaths, symlinkPaths, reservedBefore, reserved)
    ensures OnlyLinks(before, after)
  {
    hide Render, RelString;
  }

  lemma OneLinkOnly(before: seq<Entry>, after: seq<Entry>, dir: Path, target: string)
    requires OneSymlink(before, after, dir, target)
    ensures OnlyLinks(before, after)
  {
  }

  /** At least one entry more, and every new one a direct child of `dir` that is no directory. */
  ghost predicate SlotFilled(dir: Path, before: seq<Entry>, after: seq<Entry>) {
    && |before| < |after| && before <= after
    && forall k :: |before| <= k < |after| ==> !after[k].DirEntry? && after[k].path != [] && Parent(after[k].path) == dir
  }

  /** The new entries are the directory `path` itself and then nothing outside of it. */
  ghost predicate SubtreePlanned(path: Path, before: seq<Entry>, after: seq<Entry>) {
    && before <= after
    && (|before| < |after| ==> after[|before|].DirEntry? && after[|before|].path == path)
    && forall k :: |before| <= k < |after| ==> path <= after[k].path
  }

  lemma StrategyFillsSlot(strategy: Strategy, dir: Path, before: seq<Entry>, after: seq<Entry>,
                          filePaths: seq<Path>, symlinkPaths: seq<Path>, reservedBefore: set<Path>, reserved: set<Path>)
    requires StrategyPlanned(strategy, dir, before, after, filePaths, symlinkPaths, reservedBefore, reserved)
    ensures SlotFilled(dir, before, after)
  {
    hide Render, RelString;
  }

  lemma FileFillsSlot(before: seq<Entry>, after: seq<Entry>, dir: Path, explicitStrategy: bool)
    requires FilePlanned(before, after, dir, explicitStrategy)
    ensures SlotFilled(dir, before, after)
  {
    hide RelString;
  }

  // ---------------------------------------------------------------- where links lead

  function Destination(e: Entry): Path
    requires e.SymlinkEntry? && e.path != []
  {
    LinkDestination(Parent(e.path), e.target)
  }

  /**
    Each new link leads to a planned path or to a reserved one, and each newly reserved path is
    where some new link leads.
   */
  ghost predicate Accounts(before: seq<Entry>, after: seq<Entry>, reservedBefore: set<Path>, reserved: set<Path>) {
    && before <= after && reservedBefore <= reserved
    && (forall k :: |before| <= k < |after| && after[k].SymlinkEntry? ==>
          after[k].path != [] && Destination(after[k]) in PathsOf(after) + reserved)
    && (forall t :: t in reserved && t !in reservedBefore ==>
          exists k :: |before| <= k < |after| && after[k].SymlinkEntry? && after[k].path != [] && Destination(after[k]) == t)
  }

  lemma AccountsTransitive(a: seq<Entry>, b: seq<Entry>, c: seq<Entry>, ra: set<Path>, rb: set<Path>, rc: set<Path>)
    requires Accounts(a, b, ra, rb) && Accounts(b, c, rb, rc)
    ensures Accounts(a, c, ra, rc)
  {
    hide LinkDestination;
    GrownDirs(b, c);
    forall t | t in rc && t !in ra
      ensures exists k :: |a| <= k < |c| && c[k].SymlinkEntry? && c[k].path != [] && Destination(c[k]) == t
    {
      if t in rb {
        var k :| |a| <= k < |b| && b[k].SymlinkEntry? && b[k].path != [] && Destination(b[k]) == t;
        assert c[k] == b[k];
      }
    }
    forall k | |a| <= k < |c| && c[k].SymlinkEntry?
      ensures c[k].path != [] && Destination(c[k]) in PathsOf(c) + rc
    {
      if k < |b| { assert c[k] == b[k]; }
    }
  }

  /** Entries that are no links. */
  lemma NoLinksAccount(before: seq<Entry>, after: seq<Entry>, reserved: set<Path>)
    requires before <= after && forall k :: |before| <= k < |after| ==> !after[k].SymlinkEntry?
    ensures Accounts(before, after, reserved, reserved)
  {
  }

  /** One link that leads to a planned path, or to one reserved for it. */
  lemma OneLinkAccounts(before: seq<Entry>, after: seq<Entry>, dir: Path, target: string, reservedBefore: set<Path>, reserved: set<Path>)
    requires OneSymlink(before, after, dir, target)
    requires var t := LinkDestination(dir, target);
      (t in PathsOf(before) && reserved == reservedBefore) || reserved == reservedBefore + {t}
    ensures Accounts(before, after, reservedBefore, reserved)
  {
    hide LinkDestination;
    var p: Path :| p != [] && Parent(p) == dir && after == before + [SymlinkEntry(p, target, NO_METADATA)];
    GrownDirs(before, after);
    var k := |before|;
    assert after[k] == SymlinkEntry(p, target, NO_METADATA) && Destination(after[k]) == LinkDestination(dir, target);
  }

  ghost predicate PlannedPaths(paths: seq<Path>, entries: seq<Entry>) {
    forall p :: p in paths ==> p in PathsOf(entries) && Canonical(p)
  }

  lemma LinksToAccount(choices: seq<Path>, before: seq<Entry>, after: seq<Entry>, dir: Path, form: Path -> string, reserved: set<Path>)
    requires PlannedPaths(choices, before) && LinksTo(choices, before, after, dir, form)
    requires forall t :: Canonical(t) ==> LinkDestination(dir, form(t)) == t
    ensures Accounts(before, after, reserved, reserved)
  {
    hide OneSymlink, Accounts, LinkDestination;
    var t :| t in choices && OneSymlink(before, after, dir, form(t));
    OneLinkAccounts(before, after, dir, form(t), reserved, reserved);
  }

  lemma CycleAccounts(before: seq<Entry>, after: seq<Entry>, dir: Path, reserved: set<Path>)
    requires Canonical(dir) && TwoCycle(before, after, dir) && forall e :: e in after ==> Canonical(e.path)
    ensures Accounts(before, after, reserved, reserved)
  {
    hide RelString, LinkDestination;
    var p: Path, q: Path :| p != [] && q != [] && p != q && Parent(p) == dir && Parent(q) == dir
      && after == before + [SymlinkEntry(p, RelString(dir, q), NO_METADATA), SymlinkEntry(q, RelString(dir, p), NO_METADATA)];
    assert after[|before|].path == p && after[|before| + 1].path == q;
    assert p in PathsOf(after) && q in PathsOf(after);
    RelLeads(dir, p);
    RelLeads(dir, q);
  }

  lemma SelfAccounts(before: seq<Entry>, after: seq<Entry>, p: Path, reserved: set<Path>)
    requires p != [] && Canonical(p) && after == before + [SymlinkEntry(p, Last(p), NO_METADATA)]
    ensures Accounts(before, after, reserved, reserved)
  {
    NameLeads(Parent(p), Last(p));
    hide LinkDestination;
    assert p == Parent(p) + [Last(p)] && after[|before|].path == p;
  }

  lemma StrategyAccounts(strategy: Strategy, dir: Path, before: seq<Entry>, after: seq<Entry>,
                         filePaths: seq<Path>, symlinkPaths: seq<Path>, reservedBefore: set<Path>, reserved: set<Path>)
    requires StrategyPlanned(strategy, dir, before, after, filePaths, symlinkPaths, reservedBefore, reserved)
    requires Canonical(dir) && PlannedPaths(filePaths, before) && PlannedPaths(symlinkPaths, before)
    requires forall e :: e in after ==> Canonical(e.path)
    ensures Accounts(before, after, reservedBefore, reserved)
  {
    hide RelString, Render, OneSymlink, Accounts, LinksTo, TwoCycle, PlannedPaths, LinkDestination;
    forall t | Canonical(t)
      ensures LinkDestination(dir, Render(t)) == t && LinkDestination(dir, RelString(dir, t)) == t
    {
      RenderLeads(dir, t);
      RelLeads(dir, t);
    }
    match strategy
    case Absolute => LinksToAccount(filePaths, before, after, dir, Render, reserved);
    case Relative => LinksToAccount(filePaths, before, after, dir, t => RelString(dir, t), reserved);
    case Dangling =>
      var t: Path :| Canonical(t) && t != [] && Parent(t) == dir
        && reserved == reservedBefore + {t} && OneSymlink(before, after, dir, Render(t));
      RenderLeads(dir, t);
      OneLinkAccounts(before, after, dir, Render(t), reservedBefore, reserved);
    case SelfReferential =>
      var p: Path :| p != [] && Parent(p) == dir && after == before + [SymlinkEntry(p, Last(p), NO_METADATA)];
      assert after[|before|] in after;
      SelfAccounts(before, after, p, reserved);
    case Chained => LinksToAccount(symlinkPaths, before, after, dir, Render, reserved);
    case Cycle => CycleAccounts(before, after, dir, reserved);
    case UnknownStrategy(_) =>
  }

  lemma FileAccounts(before: seq<Entry>, after: seq<Entry>, dir: Path, explicitStrategy: bool, reserved: set<Path>)
    requires FilePlanned(before, after, dir, explicitStrategy) && Canonical(dir) && forall e :: e in after ==> Canonical(e.path)
    ensures Accounts(before, after, reserved, reserved)
  {
    hide RelString, OneSymlink, Accounts, LinkDestination;
    var e := after[|before|];
    var mid := before + [e];
    SnocPaths(before, e);
    NoLinksAccount(before, mid, reserved);
    if after != mid {
      assert e in after;
      RelLeads(dir, e.path);
      OneLinkAccounts(mid, after, dir, RelString(dir, e.path), reserved, reserved);
      AccountsTransitive(before, mid, after, reserved, reserved, reserved);
    }
  }

  lemma HardlinkFillsSlot(before: seq<Entry>, after: seq<Entry>, dir: Path, filePaths: seq<Path>, reserved: set<Path>)
    requires before <= after && |after| == |before| + 1 && LinkPlanned(after[|before|], dir, filePaths)
    ensures SlotFilled(dir, before, after) && Accounts(before, after, reserved, reserved)
  {
    NoLinksAccount(before, after, reserved);
  }

  lemma SpecialFillsSlot(before: seq<Entry>, after: seq<Entry>, dir: Path, numbersConfigured: bool, reserved: set<Path>)
    requires OneSpecial(before, after, dir, numbersConfigured)
    ensures SlotFilled(dir, before, after) && Accounts(before, after, reserved, reserved)
  {
    NoLinksAccount(before, after, reserved);
  }

  lemma SpecialIsOne(before: seq<Entry>, after: seq<Entry>, dir: Path, numbersConfigured: bool)
    requires OneSpecial(before, after, dir, numbersConfigured)
    ensures |after| == |before| + 1 && after[|before|].SpecialEntry?
  {
  }

  lemma NothingPlanned(path: Path, entries: seq<Entry>)
    ensures SubtreePlanned(path, entries, entries)
  {
  }

  lemma OnlyDirPlanned(path: Path, before: seq<Entry>, after: seq<Entry>)
    requires before <= after && |after| == |before| + 1
    requires after[|before|].DirEntry? && after[|before|].path == path
    ensures SubtreePlanned(path, before, after)
  {
  }

  lemma SlotInSubtree(path: Path, before: seq<Entry>, mid: seq<Entry>, after: seq<Entry>)
    requires SubtreePlanned(path, before, mid) && |before| < |mid| && SlotFilled(path, mid, after)
    ensures SubtreePlanned(path, before, after)
  {
  }

  lemma ChildInSubtree(path: Path, child: Path, before: seq<Entry>, mid: seq<Entry>, after: seq<Entry>)
    requires child != [] && Parent(child) == path
    requires SubtreePlanned(path, before, mid) && |before| < |mid| && SubtreePlanned(child, mid, after)
    ensures SubtreePlanned(path, before, after)
  {
    assert path <= child;
  }

  // ---------------------------------------------------------------- draws

  /**
    What is drawn for a directory: how deep paths may go, mode and metadata, how many directories
    and file slots, and the same for its directories.
   */
  datatype DirDraw = DirDraw(deepest: int, mode: nat, metadata: Metadata, nDirs: int, nFiles: int, children: seq<DirDraw>)

  function AtLeastZero(n: int): nat {
    if n > 0 then n else 0
  }

  /** The entries planned for a directory: none when it is too deep, else itself, its directories and its file slots. */
  ghost predicate Follows(draw: DirDraw, path: Path, depth: nat, s: seq<Entry>)
    decreases draw, |draw.children| + 1
  {
    if depth + 1 > draw.deepest then s == []
    else
      && s != [] && s[0] == DirEntry(path, draw.mode, draw.metadata) && |draw.children| == AtLeastZero(draw.nDirs)
      && exists m :: 1 <= m <= |s| && ChildrenFollow(draw, |draw.children|, path, depth, s[1..m]) && SlotsFilled(draw.nFiles, path, s[m..])
  }

  /** The first `k` directories of a directory, one after the other. */
  ghost predicate ChildrenFollow(draw: DirDraw, k: nat, path: Path, depth: nat, s: seq<Entry>)
    requires k <= |draw.children|
    decreases draw, k
  {
    if k == 0 then s == []
    else
      exists m, child: Path :: 0 <= m <= |s| && child != [] && Parent(child) == path
        && ChildrenFollow(draw, k - 1, path, depth, s[..m]) && Follows(draw.children[k - 1], child, depth + 1, s[m..])
  }

  /** As many slots as were drawn, each with something in it. */
  ghost predicate SlotsFilled(n: int, dir: Path, s: seq<Entry>)
    decreases n
  {
    if n <= 0 then s == []
    else exists m :: 0 <= m < |s| && SlotsFilled(n - 1, dir, s[..m]) && SlotFilled(dir, s[..m], s)
  }

  /** Only the children that are there matter. */
  lemma {:induction false} ChildrenStay(draw: DirDraw, next: DirDraw, k: nat, path: Path, depth: nat, s: seq<Entry>)
    requires k <= |draw.children| && draw.children <= next.children && ChildrenFollow(draw, k, path, depth, s)
    ensures ChildrenFollow(next, k, path, depth, s)
    decreases k
  {
    hide Follows;
    if k > 0 {
      var m, child: Path :| 0 <= m <= |s| && child != [] && Parent(child) == path
        && ChildrenFollow(draw, k - 1, path, depth, s[..m]) && Follows(draw.children[k - 1], child, depth + 1, s[m..]);
      ChildrenStay(draw, next, k - 1, path, depth, s[..m]);
    }
  }

  lemma TooDeep(draw: DirDraw, path: Path, depth: nat, entries: seq<Entry>)
    requires depth + 1 > draw.deepest
    ensures Follows(draw, path, depth, entries[|entries|..])
  {
  }

  /** The draw of a directory after its first `i` directories. */
  ghost predicate DirsSoFar(draw: DirDraw, own: DirDraw, nDirs: int, i: nat, path: Path, depth: nat, s: seq<Entry>) {
    && draw == own.(nDirs := nDirs, nFiles := draw.nFiles, children := draw.children)
    && |draw.children| == i && ChildrenFollow(draw, i, path, depth, s)
  }

  lemma NoChildren(own: DirDraw, nDirs: int, path: Path, depth: nat, entries: seq<Entry>)
    ensures DirsSoFar(own.(nDirs := nDirs, children := []), own, nDirs, 0, path, depth, entries[|entries|..])
  {
  }

  /** All slots that were drawn: a negative draw is none. */
  lemma SlotsDone(i: nat, n: int, dir: Path, s: seq<Entry>)
    requires SlotsFilled(i, dir, s) && i == AtLeastZero(n)
    ensures SlotsFilled(n, dir, s)
  {
  }

  lemma ChildFollows(draw: DirDraw, last: DirDraw, own: DirDraw, nDirs: int, i: nat, path: Path, depth: nat, child: Path,
                     from: nat, before: seq<Entry>, after: seq<Entry>)
      returns (next: DirDraw)
    requires from <= |before| && Grown(before, after) && child != [] && Parent(child) == path
    requires DirsSoFar(draw, own, nDirs, i, path, depth, before[from..]) && Follows(last, child, depth + 1, after[|before|..])
    ensures DirsSoFar(next, own, nDirs, i + 1, path, depth, after[from..])
  {
    next := draw.(children := draw.children + [last]);
    ChildrenStay(draw, next, |draw.children|, path, depth, before[from..]);
    var s := after[from..];
    var m := |before| - from;
    assert s[..m] == before[from..] && s[m..] == after[|before|..];
    hide Follows;
    assert next.children[|draw.children|] == last;
  }

  lemma OneMoreSlot(n: nat, dir: Path, from: nat, before: seq<Entry>, after: seq<Entry>)
    requires from <= |before| && SlotsFilled(n, dir, before[from..]) && SlotFilled(dir, before, after)
    ensures SlotsFilled(n + 1, dir, after[from..]) && before <= after
  {
    var s := after[from..];
    var m := |before| - from;
    assert s[..m] == before[from..];
    assert SlotFilled(dir, s[..m], s) by {
      forall k | m <= k < |s| ensures !s[k].DirEntry? && s[k].path != [] && Parent(s[k].path) == dir { assert s[k] == after[from + k]; }
    }
  }

  lemma StartsWith(path: Path, before: seq<Entry>, after: seq<Entry>)
    requires SubtreePlanned(path, before, after)
    ensures before <= after
  {
  }

  lemma NoSlots(dir: Path)
    ensures SlotsFilled(0, dir, [])
  {
  }

  /** A directory's own entry, then its directories, then its slots. */
  lemma WholeDir(draw: DirDraw, own: DirDraw, nDirs: int, nFiles: int, path: Path, depth: nat,
                 before: seq<Entry>, withDirs: seq<Entry>, after: seq<Entry>)
      returns (whole: DirDraw)
    requires before <= withDirs <= after && |before| < |withDirs| && after[|before|] == DirEntry(path, own.mode, own.metadata)
    requires depth + 1 <= own.deepest && DirsSoFar(draw, own, nDirs, AtLeastZero(nDirs), path, depth, withDirs[|before| + 1..])
    requires SlotsFilled(nFiles, path, after[|withDirs|..])
    ensures Follows(whole, path, depth, after[|before|..])
  {
    whole := draw.(nFiles := nFiles);
    ChildrenStay(draw, whole, |draw.children|, path, depth, withDirs[|before| + 1..]);
    hide ChildrenFollow, SlotsFilled;
    var s := after[|before|..];
    var m := |withDirs| - |before|;
    assert s[1..m] == withDirs[|before| + 1..] && s[m..] == after[|withDirs|..];
  }

  /** planState together with the run plan it fills. */
  class PlanState {
    const base: Path
    const entryLimit: int
    const explicitStrategy: bool
    const deviceNumbersConfigured: bool

    var entries: seq<Entry>
    var used: set<Path>
    var lastPath: Option<Path>
    var filePaths: seq<Path>
    var symlinkPaths: seq<Path>
    var hardlinkGroups: seq<HardlinkGroup>
    var groupByPath: map<Path, HardlinkGroup>
    var pathRetries: nat

    /** Targets of dangling links: claimed, never to be filled. */
    ghost var reserved: set<Path>

    ghost function GroupValues(): seq<Group>
      reads this`hardlinkGroups, hardlinkGroups
    {
      ValuesOf(hardlinkGroups)
    }

    ghost function Groups(): set<HardlinkGroup>
      reads this`hardlinkGroups
    {
      set g | g in hardlinkGroups
    }

    /** Group objects are distinct, and the index points each path to the group that lists it. */
    ghost predicate Indexed()
      reads this`hardlinkGroups, this`groupByPath, hardlinkGroups
    {
      && (forall k, l :: 0 <= k < l < |hardlinkGroups| ==> hardlinkGroups[k] != hardlinkGroups[l])
      && (forall p :: p in groupByPath ==> groupByPath[p] in hardlinkGroups && p in groupByPath[p].paths)
      && (forall g, p :: g in hardlinkGroups && p in g.paths ==> p in groupByPath && groupByPath[p] == g)
    }

    ghost predicate Valid()
      reads this, hardlinkGroups
    {
      Indexed() && PlanInvariant(base, entryLimit, entries, used, reserved, lastPath, filePaths, symlinkPaths, GroupValues())
    }

    /** A path handed out and not yet filled or reserved. */
    ghost predicate Claimed(p: Path)
      reads this
    {
      p in used && p !in PathsOf(entries) && p !in reserved && Canonical(p)
    }

    constructor (base: Path, entryLimit: int, explicitStrategy: bool, deviceNumbersConfigured: bool)
      requires entryLimit > 0
      ensures Valid() && this.base == base && this.entryLimit == entryLimit
      ensures this.explicitStrategy == explicitStrategy && this.deviceNumbersConfigured == deviceNumbersConfigured
      ensures entries == [] && used == {base} && reserved == {} && hardlinkGroups == []
    {
      this.base, this.entryLimit := base, entryLimit;
      this.explicitStrategy, this.deviceNumbersConfigured := explicitStrategy, deviceNumbersConfigured;
      entries, used, lastPath, filePaths, symlinkPaths := [], {base}, None, [], [];
      hardlinkGroups, groupByPath, pathRetries := [], map[], 0;
      reserved := {};
    }

    /**
      Why planning stops: the limit is reached; 128 names in a row were taken in one directory;
      device numbers are missing or drawn negative; or a configured generator failed or drew an
      unknown code.
     */
    ghost predicate Cause(error: PlanError)
      reads this`entries, this`used, this`pathRetries
    {
      match error
      case EntryLimitExceeded => |entries| >= entryLimit
      case PathCollisionExhausted =>
        pathRetries >= 128 && exists p :: p in used && p != [] && Parent(p) in DirPaths(entries)
      case DeviceNumbersRequired => !deviceNumbersConfigured
      case DeviceNumberNegative => deviceNumbersConfigured
      case SymlinkStrategyInvalid => explicitStrategy
      case _ => true
    }

    /** planUniquePathWithByte: a child of `dir` no earlier call returned. */
    method PlanUniquePath(dir: Path) returns (result: Result<Path, PlanError>)
      requires Valid() && PlannedDir(dir)
      modifies this`used, this`pathRetries
      ensures Valid() && old(used) <= used
      ensures result.Ok? ==> Claimed(result.value) && result.value !in old(used)
      ensures result.Ok? ==> result.value != [] && Parent(result.value) == dir
      ensures result.Err? ==> result.error == PathCollisionExhausted && Cause(PathCollisionExhausted) && used == old(used)
    {
      hide PlanInvariant, Indexed;
      for attempt := 1 to MAX_PLAN_RETRIES + 1
        modifies this`pathRetries, this`used
        invariant Valid() && used == old(used) && pathRetries == old(pathRetries) + attempt - 1
        invariant attempt > 1 ==> exists p :: p in used && p != [] && Parent(p) == dir
      {
        var name := DrawName();
        var path := dir + [name];
        assert path != [] && Parent(path) == dir;
        if path in used {
          pathRetries := pathRetries + 1;
          continue;
        }
        ClaimKeepsInvariant(base, entryLimit, entries, used, reserved, lastPath, filePaths, symlinkPaths, GroupValues(), path);
        used := used + {path};
        assert Parent(path) == dir;
        return Ok(path);
      }
      return Err(PathCollisionExhausted);
    }

    /** appendEntry */
    method AppendEntry(e: Entry) returns (error: Option<PlanError>)
      requires Valid() && MayFollow(base, entries, e) && !e.HardlinkEntry?
      requires e.path in used && e.path !in reserved
      modifies this`entries
      ensures Valid()
      ensures error.None? ==> entries == old(entries) + [e]
      ensures error.Some? ==> error.value == EntryLimitExceeded && |entries| >= entryLimit && entries == old(entries)
      ensures error.Some? ==> Cause(error.value)
    {
      hide PlanInvariant, MayFollow, Indexed;
      if |entries| >= entryLimit {
        return Some(EntryLimitExceeded);
      }
      AppendKeepsInvariant(base, entryLimit, entries, used, reserved, lastPath, filePaths, symlinkPaths, GroupValues(), e);
      entries := entries + [e];
      return None;
    }

    /** A new group for a file that has none. */
    method OpenGroup(target: Path)
      requires Indexed() && target !in groupByPath
      modifies this`hardlinkGroups, this`groupByPath
      ensures Indexed() && groupByPath.Keys == old(groupByPath).Keys + {target}
      ensures GroupValues() == old(GroupValues()) + [Group(target, [target])]
      ensures fresh(Groups() - old(Groups()))
    {
      var group := new HardlinkGroup(target);
      hide ValuesOf, PlanInvariant;
      assert group !in hardlinkGroups;
      hardlinkGroups := hardlinkGroups + [group];
      groupByPath := groupByPath[target := group];
      ValuesSnoc(old(hardlinkGroups), group);
    }

    /** The link joins the group object its target belongs to. */
    method JoinGroup(target: Path, link: Path) returns (ghost k: nat)
      requires Indexed() && target in groupByPath && link !in groupByPath
      modifies this`groupByPath, groupByPath[target]
      ensures Indexed() && k < |old(GroupValues())| && target in old(GroupValues())[k].paths
      ensures GroupValues() == old(GroupValues())[k := old(GroupValues())[k].(paths := old(GroupValues())[k].paths + [link])]
    {
      var group := groupByPath[target];
      k :| 0 <= k < |hardlinkGroups| && hardlinkGroups[k] == group;
      group.paths := group.paths + [link];
      groupByPath := groupByPath[link := group];
    }

    /** registerHardlink: join the target's group or open a new one. */
    method RegisterHardlink(target: Path, link: Path)
      requires Indexed() && link !in groupByPath && link != target
      modifies this`hardlinkGroups, this`groupByPath, Groups()
      ensures Indexed() && Registered(old(GroupValues()), target, link, GroupValues())
      ensures fresh(Groups() - old(Groups()))
    {
      ghost var before := GroupValues();
      IndexCoversGroups(target);
      if target !in groupByPath {
        OpenGroup(target);
        assert groupByPath[target] in hardlinkGroups;
        ghost var k := JoinGroup(target, link);
        OpenThenJoin(before, target, link, k, GroupValues());
      } else {
        ghost var k := JoinGroup(target, link);
      }
    }

    /** The index knows exactly the paths the groups list. */
    lemma IndexCoversGroups(p: Path)
      requires Indexed()
      ensures p in groupByPath <==> exists k :: 0 <= k < |GroupValues()| && p in GroupValues()[k].paths
    {
      if p in groupByPath {
        var k :| 0 <= k < |hardlinkGroups| && hardlinkGroups[k] == groupByPath[p];
        assert p in GroupValues()[k].paths;
      }
      if exists k :: 0 <= k < |GroupValues()| && p in GroupValues()[k].paths {
        var k :| 0 <= k < |GroupValues()| && p in GroupValues()[k].paths;
        assert hardlinkGroups[k] in hardlinkGroups && p in hardlinkGroups[k].paths;
      }
    }

    // -------------------------------------------------------------- planning

    /** A directory the plan already holds. */
    ghost predicate PlannedDir(dir: Path)
      reads this`entries
    {
      dir in DirPaths(entries) && base <= dir && Canonical(dir)
    }

    /** A claimed child of a planned directory: the next entry may go here. */
    ghost predicate Slot(dir: Path, p: Path)
      reads this
    {
      PlannedDir(dir) && Claimed(p) && p != [] && Parent(p) == dir
    }

    /** appendSymlink */
    method AppendSymlink(dir: Path, path: Path, target: string) returns (error: Option<PlanError>)
      requires Valid() && Slot(dir, path)
      modifies this`entries, this`symlinkPaths
      ensures Valid() && Grown(old(entries), entries)
      ensures error.None? ==> PathsOf(entries) == PathsOf(old(entries)) + {path}
      ensures error.None? ==> entries == old(entries) + [SymlinkEntry(path, target, NO_METADATA)]
      ensures error.None? ==> symlinkPaths == old(symlinkPaths) + [path]
      ensures error.Some? ==> entries == old(entries) && symlinkPaths == old(symlinkPaths)
      ensures error.Some? ==> Cause(error.value)
    {
      hide PlanInvariant, Indexed, MayFollow;
      var e := SymlinkEntry(path, target, NO_METADATA);
      ClaimedMayFollow(base, entries, dir, e);
      SnocPaths(entries, e);
      error := AppendEntry(e);
      if error.Some? { return; }
      SymlinkPathKeepsInvariant(base, entryLimit, entries, used, reserved, lastPath, filePaths, symlinkPaths, GroupValues(), path);
      symlinkPaths := symlinkPaths + [path];
    }

    /** planSymlink */
    method PlanSymlink(dir: Path, target: string) returns (error: Option<PlanError>)
      requires Valid() && PlannedDir(dir)
      modifies this`entries, this`symlinkPaths, this`used, this`pathRetries
      ensures Valid() && Grown(old(entries), entries) && old(used) <= used
      ensures error.None? ==> OneSymlink(old(entries), entries, dir, target)
      ensures error.None? ==> |symlinkPaths| == |old(symlinkPaths)| + 1 && old(symlinkPaths) <= symlinkPaths
      ensures error.Some? ==> entries == old(entries)
      ensures error.Some? ==> Cause(error.value)
    {
      hide PlanInvariant, Indexed;
      var path := PlanUniquePath(dir);
      if path.Err? { return Some(path.error); }
      error := AppendSymlink(dir, path.value, target);
    }

    /** planSymlinkCycle: each link points to the next, the last to the first. */
    method PlanSymlinkCycle(dir: Path) returns (error: Option<PlanError>)
      requires Valid() && PlannedDir(dir)
      modifies this`entries, this`symlinkPaths, this`used, this`pathRetries
      ensures Valid() && Grown(old(entries), entries) && old(used) <= used
      ensures error.None? ==> TwoCycle(old(entries), entries, dir)
      ensures error.Some? ==> Cause(error.value)
    {
      hide PlanInvariant, Indexed, DirPaths, PathsOf, Canonical, RelString;
      var cyclePaths: seq<Path> := [];
      while |cyclePaths| < CYCLE_LENGTH
        modifies this`used, this`pathRetries
        invariant Valid() && old(used) <= used && |cyclePaths| <= CYCLE_LENGTH
        invariant forall k :: 0 <= k < |cyclePaths| ==> Slot(dir, cyclePaths[k])
        invariant forall k, l :: 0 <= k < l < |cyclePaths| ==> cyclePaths[k] != cyclePaths[l]
        decreases CYCLE_LENGTH - |cyclePaths|
      {
        var path := PlanUniquePath(dir);
        if path.Err? { return Some(path.error); }
        cyclePaths := cyclePaths + [path.value];
      }
      for i := 0 to |cyclePaths|
        modifies this`entries, this`symlinkPaths
        invariant Valid() && Grown(old(entries), entries) && i <= CYCLE_LENGTH == |cyclePaths|
        invariant forall k :: i <= k < |cyclePaths| ==> Slot(dir, cyclePaths[k])
        invariant i == 0 ==> entries == old(entries)
        invariant i >= 1 ==> cyclePaths[0] != [] && Parent(cyclePaths[0]) == dir
        invariant i == 1 ==> entries == old(entries) + [SymlinkEntry(cyclePaths[0], RelString(dir, cyclePaths[1]), NO_METADATA)]
        invariant i == 2 ==> TwoCycle(old(entries), entries, dir)
      {
        var path := cyclePaths[i];
        var next := cyclePaths[(i + 1) % |cyclePaths|];
        ghost var before := entries;
        error := AppendSymlink(dir, path, RelString(Parent(path), next));
        if error.Some? { return; }
        GrownDirs(before, entries);
        if i == 1 { CycleClosed(old(entries), before, entries, dir, cyclePaths[0], cyclePaths[1]); }
      }
      return None;
    }

    /** planSymlinkStrategy */
    method PlanSymlinkStrategy(dir: Path, strategy: Strategy) returns (result: Result<bool, PlanError>)
      requires Valid() && PlannedDir(dir)
      modifies this`entries, this`symlinkPaths, this`used, this`pathRetries, this`reserved
      ensures Valid() && Grown(old(entries), entries) && old(used) <= used && old(reserved) <= reserved
      ensures result == Ok(true) ==>
        StrategyPlanned(strategy, dir, old(entries), entries, filePaths, old(symlinkPaths), old(reserved), reserved)
      ensures result == Ok(false) ==> entries == old(entries) && reserved == old(reserved)
      ensures result.Ok? ==> (result.value <==> Linkable(true, strategy, filePaths, old(symlinkPaths), None))
      ensures result.Err? && result.error != SymlinkStrategyInvalid ==> Cause(result.error)
      ensures strategy.UnknownStrategy? ==> result == Err(SymlinkStrategyInvalid)
    {
      hide PlanInvariant, Indexed, DirPaths, PathsOf, Canonical, OneSymlink, TwoCycle, Render, RelString;
      var error: Option<PlanError>;
      match strategy {
        case Absolute =>
          if |filePaths| == 0 { return Ok(false); }
          var target := DrawPath(filePaths);
          error := PlanSymlink(dir, Render(target));
        case Relative =>
          if |filePaths| == 0 { return Ok(false); }
          var target := DrawPath(filePaths);
          error := PlanSymlink(dir, RelString(dir, target));
        case Dangling =>
          var target := PlanUniquePath(dir);
          if target.Err? { return Err(target.error); }
          ReserveKeepsInvariant(base, entryLimit, entries, used, reserved, lastPath, filePaths, symlinkPaths, GroupValues(), target.value);
          reserved := reserved + {target.value};
          error := PlanSymlink(dir, Render(target.value));
        case SelfReferential =>
          var path := PlanUniquePath(dir);
          if path.Err? { return Err(path.error); }
          error := AppendSymlink(dir, path.value, Last(path.value));
        case Chained =>
          if |symlinkPaths| == 0 { return Ok(false); }
          var target := DrawPath(symlinkPaths);
          error := PlanSymlink(dir, Render(target));
        case Cycle =>
          error := PlanSymlinkCycle(dir);
        case UnknownStrategy(_) =>
          return Err(SymlinkStrategyInvalid);
      }
      if error.Some? { return Err(error.value); }
      return Ok(true);
    }

    /** tryPlanSymlink */
    method TryPlanSymlink(dir: Path) returns (result: Result<bool, PlanError>, ghost wanted: bool, ghost drawn: Strategy)
      requires Valid() && PlannedDir(dir)
      modifies this`entries, this`symlinkPaths, this`used, this`pathRetries, this`reserved
      ensures Valid() && Grown(old(entries), entries) && old(used) <= used && old(reserved) <= reserved
      ensures result == Ok(false) ==> entries == old(entries)
      ensures result.Ok? ==> (result.value <==> wanted && Linkable(explicitStrategy, drawn, filePaths, old(symlinkPaths), lastPath))
      ensures result == Ok(true) && explicitStrategy ==>
        StrategyPlanned(drawn, dir, old(entries), entries, filePaths, old(symlinkPaths), old(reserved), reserved)
      ensures result == Ok(true) && !explicitStrategy ==>
        lastPath.Some? && reserved == old(reserved) && OneSymlink(old(entries), entries, dir, Render(lastPath.value))
      ensures result == Ok(false) ==> reserved == old(reserved)
      ensures result.Err? ==> Cause(result.error)
    {
      hide PlanInvariant, Indexed, DirPaths, PathsOf, OneSymlink, StrategyPlanned, Render;
      var chosen := DrawBool();
      wanted, drawn := chosen, Absolute;
      if !chosen { return Ok(false), wanted, drawn; }
      if explicitStrategy {
        var strategy := DrawStrategy();
        drawn := strategy;
        if strategy.UnknownStrategy? { return Err(SymlinkStrategyInvalid), wanted, drawn; }
        result := PlanSymlinkStrategy(dir, strategy);
        return;
      }
      if lastPath.None? { return Ok(false), wanted, drawn; }
      var error := PlanSymlink(dir, Render(lastPath.value));
      if error.Some? { return Err(error.value), wanted, drawn; }
      return Ok(true), wanted, drawn;
    }

    /** tryPlanHardlink */
    method TryPlanHardlink(dir: Path) returns (result: Result<bool, PlanError>, ghost wanted: bool)
      requires Valid() && PlannedDir(dir)
      modifies this, Groups()
      ensures Valid() && Grown(old(entries), entries) && old(used) <= used && reserved == old(reserved)
      ensures fresh(Groups() - old(Groups()))
      ensures result.Ok? ==> (result.value <==> wanted && old(filePaths) != [])
      ensures result == Ok(false) ==> entries == old(entries)
      ensures result == Ok(true) ==> |entries| == |old(entries)| + 1 && LinkPlanned(entries[|old(entries)|], dir, old(filePaths))
      ensures result == Ok(true) ==>
        var link := entries[|old(entries)|].path; filePaths == old(filePaths) + [link] && lastPath == Some(link)
      ensures result.Err? ==> Cause(result.error)
    {
      hide PlanInvariant, Indexed, DirPaths, Canonical;
      var chosen := DrawBool();
      wanted := chosen;
      if !chosen || |filePaths| == 0 { return Ok(false), wanted; }
      var target := DrawPath(filePaths);
      var path := PlanUniquePath(dir);
      if path.Err? { return Err(path.error), wanted; }
      var error := AppendHardlink(dir, path.value, target);
      if error.Some? { return Err(error.value), wanted; }
      return Ok(true), wanted;
    }

    /** The link's group first, then its entry. */
    method AppendHardlink(dir: Path, link: Path, target: Path) returns (error: Option<PlanError>)
      requires Valid() && Slot(dir, link) && target in filePaths
      modifies this`entries, this`lastPath, this`filePaths, this`hardlinkGroups, this`groupByPath, Groups()
      ensures Valid() && Grown(old(entries), entries) && fresh(Groups() - old(Groups()))
      ensures error.None? ==> entries == old(entries) + [HardlinkEntry(link, target)]
      ensures error.None? ==> filePaths == old(filePaths) + [link] && lastPath == Some(link)
      ensures error.Some? ==> Cause(error.value)
    {
      hide PlanInvariant, Registered, MayFollow;
      if |entries| >= entryLimit { return Some(EntryLimitExceeded); }
      var e := HardlinkEntry(link, target);
      LinkTargetIsRegular(base, entryLimit, entries, used, reserved, lastPath, filePaths, symlinkPaths, GroupValues(), target);
      ClaimedMayFollow(base, entries, dir, e);
      IndexedPathsAreRegular(link);
      ghost var groups := GroupValues();
      RegisterHardlink(target, link);
      AppendLinkKeepsInvariant(base, entryLimit, entries, used, reserved, lastPath, filePaths, symlinkPaths, groups, link, target, GroupValues());
      entries := entries + [e];
      filePaths := filePaths + [link];
      lastPath := Some(link);
      return None;
    }

    /** Only regular entries are in the index, so a claimed path is not. */
    lemma IndexedPathsAreRegular(p: Path)
      requires Valid() && p !in PathsOf(entries)
      ensures p !in groupByPath
    {
      IndexCoversGroups(p);
      GroupedPathsArePlanned(base, entryLimit, entries, used, reserved, lastPath, filePaths, symlinkPaths, GroupValues(), p);
    }

    /** tryPlanSpecialFile */
    method TryPlanSpecialFile(dir: Path) returns (result: Result<bool, PlanError>, ghost wanted: Option<SpecialType>)
      requires Valid() && PlannedDir(dir)
      modifies this`entries, this`lastPath, this`used, this`pathRetries
      ensures Valid() && Grown(old(entries), entries) && old(used) <= used
      ensures result == Ok(false) ==> entries == old(entries) && lastPath == old(lastPath)
      ensures result.Ok? ==> (result.value <==> wanted.Some?)
      ensures result == Ok(true) ==> OneSpecial(old(entries), entries, dir, deviceNumbersConfigured) && entries[|old(entries)|].kind == wanted.value
      ensures result == Ok(true) ==> |entries| > 0 && lastPath == Some(entries[|entries| - 1].path)
      ensures result.Err? ==> Cause(result.error)
    {
      hide PlanInvariant, Indexed, MayFollow, DirPaths, PathsOf, Canonical;
      var chosen := DrawBool();
      wanted := None;
      if !chosen { return Ok(false), wanted; }
      var drawn := DrawSpecial();
      if drawn.UnknownSpecial? { return Err(SpecialTypeInvalid), wanted; }
      wanted := Some(drawn.kind);
      var path := PlanUniquePath(dir);
      if path.Err? { return Err(path.error), wanted; }
      var mode := DrawMode();
      var major, minor := 0, 0;
      if drawn.kind.CharDevice? || drawn.kind.BlockDevice? {
        if !deviceNumbersConfigured { return Err(DeviceNumbersRequired), wanted; }
        major := DrawInt();
        minor := DrawInt();
        if major < 0 || minor < 0 { return Err(DeviceNumberNegative), wanted; }
      }
      var error := AppendSpecial(dir, SpecialEntry(path.value, mode, drawn.kind, major, minor, NO_METADATA));
      if error.Some? { return Err(error.value), wanted; }
      return Ok(true), wanted;
    }

    method AppendSpecial(dir: Path, e: Entry) returns (error: Option<PlanError>)
      requires Valid() && Slot(dir, e.path) && e.SpecialEntry?
      modifies this`entries, this`lastPath
      ensures Valid() && Grown(old(entries), entries)
      ensures error.None? ==> entries == old(entries) + [e] && lastPath == Some(e.path)
      ensures error.Some? ==> Cause(error.value)
    {
      ClaimedMayFollow(base, entries, dir, e);
      SnocPaths(entries, e);
      hide PlanInvariant, Indexed, MayFollow, DirPaths, PathsOf, RegularPaths, Canonical, Cause, ValuesOf;
      error := AppendEntry(e);
      if error.Some? { return; }
      ghost var groups := GroupValues();
      LastPathKeepsInvariant(base, entryLimit, entries, used, reserved, lastPath, filePaths, symlinkPaths, groups, e.path);
      assert Indexed();
      lastPath := Some(e.path);
      assert Indexed() && GroupValues() == groups;
    }

    /** planFile, with the relative link that may follow a file when no strategy is configured. */
    method PlanFile(dir: Path) returns (error: Option<PlanError>, ghost draw: FileDraw)
      requires Valid() && PlannedDir(dir)
      modifies this`entries, this`lastPath, this`filePaths, this`symlinkPaths, this`used, this`pathRetries
      ensures Valid() && Grown(old(entries), entries) && old(used) <= used
      ensures error.None? ==> FilePlanned(old(entries), entries, dir, explicitStrategy) && FileAsDrawn(draw, old(entries), entries, explicitStrategy)
      ensures error.None? ==>
        var p := entries[|old(entries)|].path; filePaths == old(filePaths) + [p] && lastPath == Some(p)
      ensures error.Some? ==> Cause(error.value)
    {
      hide PlanInvariant, Indexed, MayFollow, DirPaths, PathsOf, Canonical, RelString, OneSymlink;
      draw := NO_FILE;
      var path := PlanUniquePath(dir);
      if path.Err? { return Some(path.error), draw; }
      var mode := DrawMode();
      var payload := DrawPayload();
      if payload.Err? { return Some(payload.error), draw; }
      var metadata := DrawMetadata();
      if metadata.Err? { return Some(metadata.error), draw; }
      ghost var before := entries;
      draw := FileDraw(mode, payload.value.0, payload.value.1, metadata.value, false);
      error := AppendFile(dir, FileEntry(path.value, mode, payload.value.0, payload.value.1, metadata.value));
      if error.Some? { return; }
      GrownDirs(before, entries);
      var relative := DrawBool();
      draw := draw.(relative := relative);
      if explicitStrategy || !relative { return None, draw; }
      ghost var withFile := entries;
      error := PlanSymlink(dir, RelString(dir, path.value));
      if error.None? { OneLinkOnly(withFile, entries, dir, RelString(dir, path.value)); }
    }

    method AppendFile(dir: Path, e: Entry) returns (error: Option<PlanError>)
      requires Valid() && Slot(dir, e.path) && e.FileEntry?
      modifies this`entries, this`lastPath, this`filePaths
      ensures Valid() && Grown(old(entries), entries)
      ensures error.None? ==> entries == old(entries) + [e] && filePaths == old(filePaths) + [e.path] && lastPath == Some(e.path)
      ensures error.Some? ==> Cause(error.value)
    {
      ClaimedMayFollow(base, entries, dir, e);
      SnocPaths(entries, e);
      hide PlanInvariant, Indexed, MayFollow, DirPaths, PathsOf, RegularPaths, Canonical, Cause, ValuesOf;
      error := AppendEntry(e);
      if error.Some? { return; }
      RegisterFilePath(e.path);
    }

    /** registerFilePath, and the newest path */
    method RegisterFilePath(p: Path)
      requires Valid() && p in RegularPaths(entries)
      modifies this`lastPath, this`filePaths
      ensures Valid() && filePaths == old(filePaths) + [p] && lastPath == Some(p)
    {
      hide PlanInvariant, Indexed, RegularPaths, ValuesOf;
      ghost var groups := GroupValues();
      FilePathKeepsInvariant(base, entryLimit, entries, used, reserved, lastPath, filePaths, symlinkPaths, groups, p);
      filePaths := filePaths + [p];
      lastPath := Some(p);
      assert GroupValues() == groups;
    }

    /** What the planner may link to is planned, and planned paths are canonical. */
    lemma Ledger()
      requires Valid()
      ensures PlannedPaths(filePaths, entries) && PlannedPaths(symlinkPaths, entries)
      ensures lastPath.Some? ==> lastPath.value in PathsOf(entries) && Canonical(lastPath.value)
      ensures forall e :: e in entries ==> Canonical(e.path)
    {
      forall p | p in PathsOf(entries) ensures Canonical(p) { PlannedIsCanonical(base, entries, p); }
      forall p | p in RegularPaths(entries) ensures p in PathsOf(entries) { }
      hide WellFormedPlan, GroupsMatch;
    }

    /** A slot taken by links, and where they lead. */
    method TrySymlinkSlot(dir: Path) returns (result: Result<bool, PlanError>, ghost wanted: bool, ghost drawn: Strategy)
      requires Valid() && PlannedDir(dir)
      modifies this`entries, this`symlinkPaths, this`used, this`pathRetries, this`reserved
      ensures Valid() && Grown(old(entries), entries) && old(used) <= used && old(reserved) <= reserved
      ensures result == Ok(false) ==> entries == old(entries) && reserved == old(reserved)
      ensures result == Ok(true) ==> SlotFilled(dir, old(entries), entries) && Accounts(old(entries), entries, old(reserved), reserved)
      ensures result.Ok? ==> (result.value <==> wanted && Linkable(explicitStrategy, drawn, filePaths, old(symlinkPaths), lastPath))
      ensures result == Ok(true) ==> OnlyLinks(old(entries), entries)
      ensures result.Err? ==> Cause(result.error)
    {
      hide PlanInvariant, Indexed, DirPaths, PathsOf, Render, StrategyPlanned, RelString, Accounts, PlannedPaths, Canonical, Cause, OnlyLinks;
      ghost var before, links, promised := entries, symlinkPaths, reserved;
      Ledger();
      result, wanted, drawn := TryPlanSymlink(dir);
      if result != Ok(true) { return; }
      Ledger();
      if explicitStrategy {
        StrategyFillsSlot(drawn, dir, before, entries, filePaths, links, promised, reserved);
        StrategyAccounts(drawn, dir, before, entries, filePaths, links, promised, reserved);
        StrategyOnlyLinks(drawn, dir, before, entries, filePaths, links, promised, reserved);
      } else {
        RenderLeads(dir, lastPath.value);
        OneLinkAccounts(before, entries, dir, Render(lastPath.value), promised, reserved);
        OneLinkOnly(before, entries, dir, Render(lastPath.value));
      }
    }

    /** One file slot of a directory: a link, a special file or a plain file. */
    method PlanFileSlot(dir: Path) returns (error: Option<PlanError>, ghost draw: SlotDraw)
      requires Valid() && PlannedDir(dir)
      modifies this, Groups()
      ensures Valid() && Grown(old(entries), entries) && old(used) <= used && old(reserved) <= reserved
      ensures fresh(Groups() - old(Groups()))
      ensures error.None? ==> SlotFilled(dir, old(entries), entries) && Accounts(old(entries), entries, old(reserved), reserved)
      ensures error.None? ==> SlotFollows(draw, old(entries), entries, explicitStrategy, old(filePaths), old(symlinkPaths), old(lastPath))
      ensures error.Some? ==> Cause(error.value)
    {
      hide PlanInvariant, Indexed, DirPaths, PathsOf, FilePlanned, SlotFilled, Accounts, Canonical, Cause, OneSpecial, OnlyLinks, FileAsDrawn;
      ghost var before := entries;
      draw := SlotDraw(false, Absolute, false, None, NO_FILE);
      var symlink;
      ghost var linked, strategy;
      symlink, linked, strategy := TrySymlinkSlot(dir);
      draw := draw.(symlink := linked, strategy := strategy);
      if symlink.Err? { return Some(symlink.error), draw; }
      if symlink.value { return None, draw; }
      GrownDirs(before, entries);
      ghost var files := filePaths;
      var hardlink;
      ghost var wanted;
      hardlink, wanted := TryPlanHardlink(dir);
      draw := draw.(hardlink := wanted);
      if hardlink.Err? { return Some(hardlink.error), draw; }
      if hardlink.value {
        HardlinkFillsSlot(before, entries, dir, files, reserved);
        return None, draw;
      }
      GrownDirs(before, entries);
      ghost var special, file;
      error, special, file := PlanSpecialOrFile(dir);
      draw := draw.(special := special, file := file);
    }

    /** What is left for a slot: a special file or a plain one. */
    method PlanSpecialOrFile(dir: Path) returns (error: Option<PlanError>, ghost wanted: Option<SpecialType>, ghost file: FileDraw)
      requires Valid() && PlannedDir(dir)
      modifies this`entries, this`lastPath, this`filePaths, this`symlinkPaths, this`used, this`pathRetries
      ensures Valid() && Grown(old(entries), entries) && old(used) <= used
      ensures error.None? ==> SlotFilled(dir, old(entries), entries) && Accounts(old(entries), entries, reserved, reserved)
      ensures error.None? && wanted.Some? ==>
        |entries| == |old(entries)| + 1 && entries[|old(entries)|].SpecialEntry? && entries[|old(entries)|].kind == wanted.value
      ensures error.None? && wanted.None? ==> FileAsDrawn(file, old(entries), entries, explicitStrategy)
      ensures error.Some? ==> Cause(error.value)
    {
      hide PlanInvariant, Indexed, DirPaths, PathsOf, FilePlanned, SlotFilled, Accounts, Canonical, Cause, OneSpecial, FileAsDrawn;
      ghost var before := entries;
      file := NO_FILE;
      var special;
      special, wanted := TryPlanSpecialFile(dir);
      if special.Err? { return Some(special.error), wanted, file; }
      if special.value {
        SpecialFillsSlot(before, entries, dir, deviceNumbersConfigured, reserved);
        SpecialIsOne(before, entries, dir, deviceNumbersConfigured);
        return None, wanted, file;
      }
      GrownDirs(before, entries);
      error, file := PlanFile(dir);
      if error.None? {
        Ledger();
        FileFillsSlot(before, entries, dir, explicitStrategy);
        FileAccounts(before, entries, dir, explicitStrategy, reserved);
      }
    }

    /** The directory's own entry, appended first and given its metadata afterwards. */
    method PlanDirEntry(path: Path) returns (error: Option<PlanError>, ghost drawnMode: nat, ghost drawnMetadata: Metadata)
      requires Valid() && MayFollow(base, entries, DirEntry(path, 0, NO_METADATA))
      requires path in used && path !in reserved && base <= path
      modifies this`entries
      ensures Valid() && Grown(old(entries), entries)
      ensures error.None? ==> PlannedDir(path) && |entries| == |old(entries)| + 1
      ensures error.None? ==> entries[|old(entries)|] == DirEntry(path, drawnMode, drawnMetadata)
      ensures error.Some? ==> Cause(error.value)
    {
      hide PlanInvariant, Indexed;
      var mode := DrawMode();
      drawnMode, drawnMetadata := mode, NO_METADATA;
      var entryIndex := |entries|;
      ghost var front := entries;
      SnocPaths(front, DirEntry(path, mode, NO_METADATA));
      error := AppendEntry(DirEntry(path, mode, NO_METADATA));
      if error.Some? { return; }
      var metadata := DrawMetadata();
      if metadata.Err? { return Some(metadata.error), drawnMode, drawnMetadata; }
      drawnMetadata := metadata.value;
      var e := DirEntry(path, mode, metadata.value);
      PlanSizeBounded();
      AppendKeepsInvariant(base, entryLimit, front, used, reserved, lastPath, filePaths, symlinkPaths, GroupValues(), e);
      SnocPaths(front, e);
      entries := entries[entryIndex := e];   // plan.entries[entryIndex].metadata = metadata
      assert entries == front + [e];
      return None, drawnMode, drawnMetadata;
    }

    /**
      planDir. Every draw may be as large as it likes: the entry limit bounds the recursion,
      because a directory is appended before its children are planned. On success the plan follows
      the draws: every directory and every slot that was drawn is there, in order.
     */
    method PlanDir(path: Path, depth: nat) returns (error: Option<PlanError>, ghost draw: DirDraw)
      requires Valid() && MayFollow(base, entries, DirEntry(path, 0, NO_METADATA))
      requires path in used && path !in reserved && base <= path
      modifies this, Groups()
      ensures Valid() && Grown(old(entries), entries) && old(used) <= used && old(reserved) <= reserved
      ensures fresh(Groups() - old(Groups()))
      ensures error.None? ==> SubtreePlanned(path, old(entries), entries) && Accounts(old(entries), entries, old(reserved), reserved)
      ensures error.None? ==> Follows(draw, path, depth, entries[|old(entries)|..])
      ensures error.Some? ==> Cause(error.value)
      decreases entryLimit - |entries|, 0
    {
      hide Valid, PlanInvariant, Indexed, DirPaths, PathsOf, MayFollow, SubtreePlanned, SlotFilled, Accounts, Follows, DirsSoFar, SlotsFilled, Cause;
      var deepest := DrawInt();
      draw := DirDraw(deepest, 0, NO_METADATA, 0, 0, []);
      if depth + 1 > deepest {
        NothingPlanned(path, entries);
        NoLinksAccount(entries, entries, reserved);
        TooDeep(draw, path, depth, entries);
        return None, draw;
      }
      ghost var mode, metadata;
      error, mode, metadata := PlanDirEntry(path);
      if error.Some? { return; }
      draw := draw.(mode := mode, metadata := metadata);
      OnlyDirPlanned(path, old(entries), entries);
      NoLinksAccount(old(entries), entries, reserved);
      PlanSizeBounded();
      error, draw := PlanContents(path, depth, draw, old(entries), old(reserved));
    }

    /** What follows a directory's own entry: its directories, then its file slots. */
    method PlanContents(path: Path, depth: nat, ghost own: DirDraw, ghost start: seq<Entry>, ghost promised: set<Path>)
        returns (error: Option<PlanError>, ghost draw: DirDraw)
      requires Valid() && PlannedDir(path) && depth + 1 <= own.deepest
      requires |entries| == |start| + 1 && entries[|start|] == DirEntry(path, own.mode, own.metadata)
      requires SubtreePlanned(path, start, entries) && Accounts(start, entries, promised, reserved)
      modifies this, Groups()
      ensures Valid() && Grown(old(entries), entries) && old(used) <= used && old(reserved) <= reserved
      ensures fresh(Groups() - old(Groups()))
      ensures error.None? ==> SubtreePlanned(path, start, entries) && Accounts(start, entries, promised, reserved)
      ensures error.None? ==> Follows(draw, path, depth, entries[|start|..])
      ensures error.Some? ==> Cause(error.value)
      decreases entryLimit - |entries|, 3
    {
      hide Valid, PlanInvariant, Indexed, DirPaths, PathsOf, MayFollow, SubtreePlanned, SlotFilled, Accounts, Follows, DirsSoFar, SlotsFilled, Cause;
      assert start <= entries by { StartsWith(path, start, entries); }
      ghost var nDirs;
      error, draw, nDirs := PlanSubdirectories(path, depth, own, start, promised);
      if error.Some? { return; }
      ghost var withDirs := entries;
      ghost var nFiles;
      error, nFiles := PlanFileSlots(path, start, promised);
      if error.Some? { return; }
      draw := WholeDir(draw, own, nDirs, nFiles, path, depth, start, withDirs, entries);
    }

    /** The loop over the directories of a directory. */
    method PlanSubdirectories(path: Path, depth: nat, ghost own: DirDraw, ghost start: seq<Entry>, ghost promised: set<Path>)
        returns (error: Option<PlanError>, ghost draw: DirDraw, ghost nDirs: int)
      requires Valid() && PlannedDir(path) && |start| < |entries|
      requires SubtreePlanned(path, start, entries) && Accounts(start, entries, promised, reserved)
      modifies this, Groups()
      ensures Valid() && Grown(old(entries), entries) && old(used) <= used && old(reserved) <= reserved
      ensures fresh(Groups() - old(Groups()))
      ensures error.None? ==> PlannedDir(path) && SubtreePlanned(path, start, entries) && Accounts(start, entries, promised, reserved)
      ensures error.None? ==> DirsSoFar(draw, own, nDirs, AtLeastZero(nDirs), path, depth, entries[|old(entries)|..])
      ensures error.Some? ==> Cause(error.value)
      decreases entryLimit - |entries|, 2
    {
      hide Valid, PlannedDir, Grown;
      hide PlanInvariant, Indexed, DirPaths, PathsOf, MayFollow, SubtreePlanned, SlotFilled, Accounts, Follows, DirsSoFar, Cause;
      error := None;
      var drawn := DrawInt();
      nDirs := drawn;
      draw := own.(nDirs := nDirs, children := []);
      NoChildren(own, nDirs, path, depth, entries);
      assert Grown(entries, entries) by { NothingGrown(entries); }
      var i := 0;
      while i < drawn
        invariant error.None? && Valid() && Grown(old(entries), entries) && |old(entries)| <= |entries| && PlannedDir(path)
        invariant SubtreePlanned(path, start, entries) && Accounts(start, entries, promised, reserved)
        invariant 0 <= i <= AtLeastZero(drawn) && DirsSoFar(draw, own, nDirs, i, path, depth, entries[|old(entries)|..])
        invariant old(used) <= used && old(reserved) <= reserved && fresh(Groups() - old(Groups()))
        decreases drawn - i
      {
        ghost var before := entries;
        ghost var child, childPath;
        PlanSizeBounded();
        error, child, childPath := PlanSubdirectory(path, depth, start, promised);
        GrownTransitive(old(entries), before, entries);
        if error.Some? { return; }
        draw := ChildFollows(draw, child, own, nDirs, i, path, depth, childPath, |old(entries)|, before, entries);
        i := i + 1;
      }
    }

    /** One directory of a directory, under a name that is free. */
    method PlanSubdirectory(path: Path, depth: nat, ghost start: seq<Entry>, ghost promised: set<Path>)
        returns (error: Option<PlanError>, ghost child: DirDraw, ghost childPath: Path)
      requires Valid() && PlannedDir(path) && |start| < |entries|
      requires SubtreePlanned(path, start, entries) && Accounts(start, entries, promised, reserved)
      modifies this, Groups()
      ensures Valid() && Grown(old(entries), entries) && old(used) <= used && old(reserved) <= reserved
      ensures fresh(Groups() - old(Groups()))
      ensures error.None? ==> PlannedDir(path) && SubtreePlanned(path, start, entries) && Accounts(start, entries, promised, reserved)
      ensures error.None? ==> childPath != [] && Parent(childPath) == path && Follows(child, childPath, depth + 1, entries[|old(entries)|..])
      ensures error.Some? ==> Cause(error.value)
      decreases entryLimit - |entries|, 1
    {
      hide PlanInvariant, Indexed, DirPaths, PathsOf, MayFollow, SubtreePlanned, SlotFilled, Accounts, Follows, Cause;
      ghost var before, reservedBefore := entries, reserved;
      var dirPath := PlanUniquePath(path);
      if dirPath.Err? { return Some(dirPath.error), DirDraw(0, 0, NO_METADATA, 0, 0, []), path; }
      childPath := dirPath.value;
      ClaimedMayFollow(base, entries, path, DirEntry(dirPath.value, 0, NO_METADATA));
      PlanSizeBounded();
      error, child := PlanDir(dirPath.value, depth + 1);
      if error.Some? { return; }
      GrownDirs(before, entries);
      ChildInSubtree(path, dirPath.value, start, before, entries);
      AccountsTransitive(start, before, entries, promised, reservedBefore, reserved);
    }

    /** The loop over the file slots of a directory. */
    method PlanFileSlots(path: Path, ghost start: seq<Entry>, ghost promised: set<Path>)
        returns (error: Option<PlanError>, ghost nFiles: int)
      requires Valid() && PlannedDir(path) && |start| < |entries|
      requires SubtreePlanned(path, start, entries) && Accounts(start, entries, promised, reserved)
      modifies this, Groups()
      ensures Valid() && Grown(old(entries), entries) && old(used) <= used && old(reserved) <= reserved
      ensures fresh(Groups() - old(Groups()))
      ensures error.None? ==> SubtreePlanned(path, start, entries) && Accounts(start, entries, promised, reserved)
      ensures error.None? ==> SlotsFilled(nFiles, path, entries[|old(entries)|..])
      ensures error.Some? ==> Cause(error.value)
    {
      hide Valid, PlanInvariant, Indexed, DirPaths, PathsOf, MayFollow, SubtreePlanned, SlotFilled, Accounts, SlotsFilled, Cause;
      error := None;
      var drawn := DrawInt();
      nFiles := drawn;
      NoSlots(path);
      assert entries[|entries|..] == [];
      var i := 0;
      while i < drawn
        invariant error.None? && Valid() && Grown(old(entries), entries) && PlannedDir(path)
        invariant SubtreePlanned(path, start, entries) && Accounts(start, entries, promised, reserved)
        invariant 0 <= i <= AtLeastZero(drawn) && SlotsFilled(i, path, entries[|old(entries)|..])
        invariant old(used) <= used && old(reserved) <= reserved && fresh(Groups() - old(Groups()))
        decreases drawn - i
      {
        ghost var before, reservedBefore := entries, reserved;
        ghost var slot;
        error, slot := PlanFileSlot(path);
        if error.Some? { return; }
        GrownDirs(before, entries);
        SlotInSubtree(path, start, before, entries);
        AccountsTransitive(start, before, entries, promised, reservedBefore, reserved);
        OneMoreSlot(i, path, |old(entries)|, before, entries);
        i := i + 1;
      }
      SlotsDone(i, drawn, path, entries[|old(entries)|..]);
    }

    /** materializeHardlinkGroups */
    method MaterializeHardlinkGroups() returns (groups: seq<Group>)
      ensures groups == Materialized(GroupValues())
    {
      var copies: seq<Group> := [];
      for k := 0 to |hardlinkGroups|
        invariant |copies| == k && forall j :: 0 <= j < k ==> copies[j] == SortedGroup(GroupValues()[j])
      {
        copies := copies + [Group(hardlinkGroups[k].origin, Sort(PathLeq, hardlinkGroups[k].paths))];
      }
      ghost var values := GroupValues();
      assert copies == seq(|values|, j requires 0 <= j < |values| => SortedGroup(values[j]));
      groups := Sort(OriginLeq, copies);
    }

    lemma PlanSizeBounded()
      requires Valid()
      ensures |entries| <= entryLimit
    {
    }
  }

  /**
    planRun for the random flow. Whether it succeeds or stops on an error, the plan it returns
    and each of its prefixes is well-formed and within the limit, nothing is planned at the
    target of a dangling link, and the reported groups are the plan's hard link classes.
   */
  method PlanRun(base: Path, entryLimit: int, explicitStrategy: bool, deviceNumbersConfigured: bool)
      returns (entries: seq<Entry>, groups: seq<Group>, retries: nat, error: Option<PlanError>, ghost danglingTargets: set<Path>,
               ghost draw: DirDraw)
    requires Canonical(base) && entryLimit > 0
    ensures |entries| <= entryLimit
    ensures forall k :: 0 <= k <= |entries| ==> WellFormedPlan(base, entries[..k])
    ensures error.None? ==> SubtreePlanned(base, [], entries) && Follows(draw, base, 0, entries)
    ensures error.None? ==> forall e :: e in entries && e.SymlinkEntry? ==>
      e.path != [] && Destination(e) in PathsOf(entries) + danglingTargets
    ensures error.None? ==> forall t :: t in danglingTargets ==>
      exists e :: e in entries && e.SymlinkEntry? && e.path != [] && Destination(e) == t
    ensures DescribesClasses(entries, groups)
    ensures danglingTargets !! PathsOf(entries)
    ensures error == Some(EntryLimitExceeded) ==> |entries| == entryLimit
    ensures error == Some(PathCollisionExhausted) ==> retries >= 128 && entries != []
    ensures error == Some(DeviceNumbersRequired) ==> !deviceNumbersConfigured
    ensures error == Some(DeviceNumberNegative) ==> deviceNumbersConfigured
    ensures error == Some(SymlinkStrategyInvalid) ==> explicitStrategy
  {
    hide Follows, SubtreePlanned, DescribesClasses, WellFormedPlan, Destination, Materialized;
    var state := new PlanState(base, entryLimit, explicitStrategy, deviceNumbersConfigured);
    error, draw := state.PlanDir(base, 0);
    entries := state.entries;
    assert entries[0..] == entries;
    groups := state.MaterializeHardlinkGroups();
    retries := state.pathRetries;
    danglingTargets := state.reserved;
    MaterializedDescribes(base, entries, state.GroupValues());
    forall k | 0 <= k <= |entries| ensures WellFormedPlan(base, entries[..k]) {
      WellFormedPrefix(base, entries, k);
    }
  }

  lemma CycleClosed(before: seq<Entry>, mid: seq<Entry>, after: seq<Entry>, dir: Path, p: Path, q: Path)
    requires p != [] && q != [] && p != q && Parent(p) == dir && Parent(q) == dir
    requires mid == before + [SymlinkEntry(p, RelString(dir, q), NO_METADATA)]
    requires after == mid + [SymlinkEntry(q, RelString(dir, p), NO_METADATA)]
    ensures TwoCycle(before, after, dir)
  {
    hide RelString;
    assert after == before + [SymlinkEntry(p, RelString(dir, q), NO_METADATA), SymlinkEntry(q, RelString(dir, p), NO_METADATA)];
  }

  lemma OpenThenJoin(groups: seq<Group>, target: Path, link: Path, k: nat, next: seq<Group>)
    requires forall l :: 0 <= l < |groups| ==> target !in groups[l].paths
    requires k <= |groups| && target in (groups + [Group(target, [target])])[k].paths
    requires var wider := groups + [Group(target, [target])];
      next == wider[k := wider[k].(paths := wider[k].paths + [link])]
    ensures Registered(groups, target, link, next)
  {
    var wider := groups + [Group(target, [target])];
    assert forall l :: 0 <= l < |groups| ==> wider[l] == groups[l];
    assert k == |groups|;
    assert [target] + [link] == [target, link];
  }
}
