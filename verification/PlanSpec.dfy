/**
  plan.go: planned entries, what a well-formed plan is, and the hard link classes a plan
  describes. Everything here is about plan values; the planner itself is in Planner.dfy.
 */
module PlanSpec {
  import opened Wrappers
  import opened Sorting
  import opened Paths
  import opened FileSystem

  datatype Pattern = DenseRandom | SparseHoles | RepeatedBlocks | PartialRangeOverwrite

  datatype Extent = Extent(offset: int, length: int, seed: int)

  /** plannedFileContent */
  datatype Content = Content(
    pattern: Pattern,
    logicalSize: int,
    expectedWrittenBytes: int,
    expectedSparse: bool,
    seed: int,
    repeatedBlock: seq<Byte>,
    sparseExtents: seq<Extent>,
    overwriteExtents: seq<Extent>)

  /** metadataConfig */
  datatype Metadata = Metadata(
    owner: Option<(int, int)>,
    times: Option<(int, int)>,
    xattrs: Option<map<string, seq<Byte>>>,
    acl: Option<seq<string>>)

  const NO_METADATA := Metadata(None, None, None, None)

  datatype Entry =
    | DirEntry(path: Path, mode: nat, metadata: Metadata)
    | FileEntry(path: Path, mode: nat, data: seq<Byte>, content: Option<Content>, metadata: Metadata)
    | SymlinkEntry(path: Path, target: string, metadata: Metadata)
    | HardlinkEntry(path: Path, source: Path)
    | SpecialEntry(path: Path, mode: nat, kind: SpecialType, major: int, minor: int, metadata: Metadata)

  /** SymlinkStrategy; codes outside the six are invalid. */
  datatype Strategy = Absolute | Relative | Dangling | SelfReferential | Chained | Cycle | UnknownStrategy(code: nat)

  /** plannedHardlinkGroup, as a value. */
  datatype Group = Group(origin: Path, paths: seq<Path>)

  predicate Regular(e: Entry) {
    e.FileEntry? || e.HardlinkEntry?
  }

  function PathsOf(entries: seq<Entry>): set<Path> {
    set e | e in entries :: e.path
  }

  function DirPaths(entries: seq<Entry>): set<Path> {
    set e | e in entries && e.DirEntry? :: e.path
  }

  function RegularPaths(entries: seq<Entry>): set<Path> {
    set e | e in entries && Regular(e) :: e.path
  }

  /** Entry `e` may follow `earlier`: its parent and its link source are planned already. */
  predicate MayFollow(base: Path, earlier: seq<Entry>, e: Entry) {
    && Canonical(e.path) && e.path !in PathsOf(earlier)
    && (if earlier == [] then e.DirEntry? && e.path == base
        else base < e.path && Parent(e.path) in DirPaths(earlier))
    && (e.HardlinkEntry? ==> e.source in RegularPaths(earlier))
  }

  lemma MayFollowFresh(base: Path, entries: seq<Entry>, e: Entry)
    requires MayFollow(base, entries, e)
    ensures e.path !in PathsOf(entries)
  {
  }

  /** Distinct paths, parents before children, link sources before links; every prefix too. */
  ghost predicate WellFormedPlan(base: Path, entries: seq<Entry>)
    decreases entries
  {
    entries == [] ||
    (MayFollow(base, entries[..|entries| - 1], entries[|entries| - 1])
     && WellFormedPlan(base, entries[..|entries| - 1]))
  }

  lemma {:induction false} WellFormedPrefix(base: Path, entries: seq<Entry>, k: nat)
    requires WellFormedPlan(base, entries) && k <= |entries|
    ensures WellFormedPlan(base, entries[..k])
    decreases entries
  {
    if k == |entries| {
      assert entries[..k] == entries;
    } else {
      assert entries[..|entries| - 1][..k] == entries[..k];
      WellFormedPrefix(base, entries[..|entries| - 1], k);
    }
  }

  lemma WellFormedSnoc(base: Path, entries: seq<Entry>, e: Entry)
    requires WellFormedPlan(base, entries) && MayFollow(base, entries, e)
    ensures WellFormedPlan(base, entries + [e])
  {
    assert (entries + [e])[..|entries|] == entries;
  }

  /** In a well-formed plan the i-th entry may follow those before it. */
  lemma EntryFollows(base: Path, entries: seq<Entry>, i: nat)
    requires WellFormedPlan(base, entries) && i < |entries|
    ensures MayFollow(base, entries[..i], entries[i])
  {
    WellFormedPrefix(base, entries, i + 1);
    assert entries[..i + 1][..i] == entries[..i];
  }

  lemma {:induction false} PlannedIsCanonical(base: Path, entries: seq<Entry>, p: Path)
    requires WellFormedPlan(base, entries) && p in PathsOf(entries)
    ensures Canonical(p) && base <= p
    decreases entries
  {
    var front, last := entries[..|entries| - 1], entries[|entries| - 1];
    assert entries == front + [last];
    SnocPaths(front, last);
    if p in PathsOf(front) { PlannedIsCanonical(base, front, p); }
  }

  /** Well-formedness spelled out, entry by entry. */
  lemma WellFormedMeans(base: Path, entries: seq<Entry>, i: nat)
    requires WellFormedPlan(base, entries) && i < |entries|
    ensures forall j :: 0 <= j < i ==> entries[j].path != entries[i].path
    ensures i == 0 ==> entries[0].DirEntry? && entries[0].path == base
    ensures i > 0 ==>
      (base < entries[i].path && exists j :: 0 <= j < i && entries[j].DirEntry? && entries[j].path == Parent(entries[i].path))
    ensures entries[i].HardlinkEntry? ==>
      exists j :: 0 <= j < i && Regular(entries[j]) && entries[j].path == entries[i].source
  {
    EntryFollows(base, entries, i);
    var earlier := entries[..i];
    forall j | 0 <= j < i ensures entries[j].path != entries[i].path {
      assert earlier[j] in earlier && earlier[j].path in PathsOf(earlier);
    }
    if i > 0 {
      var d :| d in earlier && d.DirEntry? && d.path == Parent(entries[i].path);
      var j :| 0 <= j < i && earlier[j] == d;
    }
    if entries[i].HardlinkEntry? {
      var s :| s in earlier && Regular(s) && s.path == entries[i].source;
      var j :| 0 <= j < i && earlier[j] == s;
    }
  }

  lemma SnocPaths(entries: seq<Entry>, e: Entry)
    ensures PathsOf(entries + [e]) == PathsOf(entries) + {e.path}
    ensures DirPaths(entries + [e]) == DirPaths(entries) + if e.DirEntry? then {e.path} else {}
    ensures RegularPaths(entries + [e]) == RegularPaths(entries) + if Regular(e) then {e.path} else {}
    ensures DirPaths(entries) <= PathsOf(entries) && RegularPaths(entries) <= PathsOf(entries)
  {
  }

  // ---------------------------------------------------------------- hard link classes

  /** The plain file a regular path leads to through the plan's links. */
  function Origin(entries: seq<Entry>, p: Path): Path
    decreases entries
  {
    if entries == [] then p
    else
      var front, last := entries[..|entries| - 1], entries[|entries| - 1];
      if last.HardlinkEntry? && last.path == p then Origin(front, last.source) else Origin(front, p)
  }

  /** The regular paths that lead to `origin`: links, and links to links. */
  function Class(entries: seq<Entry>, origin: Path): set<Path> {
    set p | p in RegularPaths(entries) && Origin(entries, p) == origin
  }

  lemma OriginSnoc(entries: seq<Entry>, e: Entry, p: Path)
    ensures Origin(entries + [e], p) ==
            if e.HardlinkEntry? && e.path == p then Origin(entries, e.source) else Origin(entries, p)
  {
    assert (entries + [e])[..|entries|] == entries;
  }

  /** Origins are plain file entries, and their own origins. */
  lemma {:induction false} OriginIsFile(base: Path, entries: seq<Entry>, p: Path)
    requires WellFormedPlan(base, entries) && p in RegularPaths(entries)
    ensures exists f :: f in entries && f.FileEntry? && f.path == Origin(entries, p)
    ensures Origin(entries, Origin(entries, p)) == Origin(entries, p)
    ensures Origin(entries, p) in RegularPaths(entries)
    decreases entries
  {
    var front, last := entries[..|entries| - 1], entries[|entries| - 1];
    assert entries == front + [last];
    SnocPaths(front, last);
    var q := if last.HardlinkEntry? && last.path == p then last.source else p;
    if q in RegularPaths(front) {
      OriginIsFile(base, front, q);
      OriginSnoc(front, last, p);
      OriginSnoc(front, last, Origin(front, q));
    } else {
      assert last.FileEntry? && last.path == p;
      NotAnEntry(front, p);
      OriginSnoc(front, last, p);
    }
  }

  lemma {:induction false} NotAnEntry(entries: seq<Entry>, p: Path)
    requires p !in PathsOf(entries)
    ensures Origin(entries, p) == p
    decreases entries
  {
    if entries != [] {
      var front, last := entries[..|entries| - 1], entries[|entries| - 1];
      assert entries == front + [last];
      SnocPaths(front, last);
      NotAnEntry(front, p);
    }
  }

  ghost predicate GroupMatches(entries: seq<Entry>, g: Group) {
    |g.paths| >= 2 && g.paths[0] == g.origin && Enumerates(g.paths, Class(entries, g.origin))
  }

  /** The groups are exactly the classes with more than one path. */
  ghost predicate GroupsMatch(entries: seq<Entry>, groups: seq<Group>) {
    && (forall k :: 0 <= k < |groups| ==> GroupMatches(entries, groups[k]))
    && (forall k, l :: 0 <= k < l < |groups| ==> groups[k].origin != groups[l].origin)
    && (forall e :: e in entries && e.HardlinkEntry? ==> Grouped(groups, Origin(entries, e.path)))
  }

  predicate Grouped(groups: seq<Group>, origin: Path) {
    exists k :: 0 <= k < |groups| && groups[k].origin == origin
  }

  /** registerHardlink on values: join the target's group, or open a new one. */
  ghost predicate Registered(groups: seq<Group>, target: Path, link: Path, next: seq<Group>) {
    if exists k :: 0 <= k < |groups| && target in groups[k].paths then
      exists k :: 0 <= k < |groups| && target in groups[k].paths
        && next == groups[k := groups[k].(paths := groups[k].paths + [link])]
    else next == groups + [Group(target, [target, link])]
  }

  lemma ClassSnocOther(entries: seq<Entry>, e: Entry, origin: Path)
    requires !e.HardlinkEntry? && e.path !in PathsOf(entries) && origin != e.path
    ensures Class(entries + [e], origin) == Class(entries, origin)
  {
    SnocPaths(entries, e);
    forall p ensures Origin(entries + [e], p) == Origin(entries, p) { OriginSnoc(entries, e, p); }
    NotAnEntry(entries, e.path);
  }

  lemma ClassSnocLink(entries: seq<Entry>, link: Path, target: Path, origin: Path)
    requires link !in PathsOf(entries) && target in RegularPaths(entries)
    ensures Class(entries + [HardlinkEntry(link, target)], origin) ==
            Class(entries, origin) + if origin == Origin(entries, target) then {link} else {}
  {
    var e := HardlinkEntry(link, target);
    SnocPaths(entries, e);
    forall p ensures Origin(entries + [e], p) == if p == link then Origin(entries, target) else Origin(entries, p) {
      OriginSnoc(entries, e, p);
    }
  }

  /** Entries other than links leave the groups alone. */
  lemma OtherEntryKeepsGroups(base: Path, entries: seq<Entry>, groups: seq<Group>, e: Entry)
    requires WellFormedPlan(base, entries) && GroupsMatch(entries, groups)
    requires !e.HardlinkEntry? && e.path !in PathsOf(entries)
    ensures GroupsMatch(entries + [e], groups)
  {
    var next := entries + [e];
    SnocPaths(entries, e);
    forall k | 0 <= k < |groups| ensures GroupMatches(next, groups[k]) {
      assert GroupMatches(entries, groups[k]);
      assert groups[k].paths[0] in Class(entries, groups[k].origin);
      ClassSnocOther(entries, e, groups[k].origin);
    }
    forall h | h in next && h.HardlinkEntry? ensures Grouped(groups, Origin(next, h.path)) {
      OriginSnoc(entries, e, h.path);
    }
  }

  /** A path in a group leads to the group's origin; one in no group is a plain file of its own. */
  lemma GroupOfPath(base: Path, entries: seq<Entry>, groups: seq<Group>, p: Path)
    requires WellFormedPlan(base, entries) && GroupsMatch(entries, groups) && p in RegularPaths(entries)
    ensures forall k :: 0 <= k < |groups| ==>
              (p in groups[k].paths <==> groups[k].origin == Origin(entries, p))
    ensures (forall k :: 0 <= k < |groups| ==> p !in groups[k].paths) ==>
              Origin(entries, p) == p && Class(entries, p) == {p}
  {
    forall k | 0 <= k < |groups| ensures p in groups[k].paths <==> groups[k].origin == Origin(entries, p) {
      assert GroupMatches(entries, groups[k]);
    }
    if forall k :: 0 <= k < |groups| ==> p !in groups[k].paths {
      assert !Grouped(groups, Origin(entries, p));
      UngroupedIsPlain(entries, groups, p);
      forall q | q in Class(entries, p) ensures q == p {
        UngroupedIsPlain(entries, groups, q);
      }
    }
  }

  lemma UngroupedIsPlain(entries: seq<Entry>, groups: seq<Group>, p: Path)
    requires GroupsMatch(entries, groups) && p in RegularPaths(entries)
    requires !Grouped(groups, Origin(entries, p))
    ensures Origin(entries, p) == p
  {
    NoLinkAt(entries, p);
  }

  lemma {:induction false} NoLinkAt(entries: seq<Entry>, p: Path)
    requires forall e :: e in entries && e.HardlinkEntry? ==> e.path != p
    ensures Origin(entries, p) == p
    decreases entries
  {
    if entries != [] {
      assert entries[|entries| - 1] in entries;
      NoLinkAt(entries[..|entries| - 1], p);
    }
  }

  lemma RegisterExisting(base: Path, entries: seq<Entry>, groups: seq<Group>, target: Path, link: Path, k: nat)
    requires WellFormedPlan(base, entries) && GroupsMatch(entries, groups)
    requires target in RegularPaths(entries) && link !in PathsOf(entries)
    requires k < |groups| && target in groups[k].paths
    ensures GroupsMatch(entries + [HardlinkEntry(link, target)],
                        groups[k := groups[k].(paths := groups[k].paths + [link])])
  {
    var next := entries + [HardlinkEntry(link, target)];
    var grown := groups[k := groups[k].(paths := groups[k].paths + [link])];
    GroupOfPath(base, entries, groups, target);
    forall l | 0 <= l < |grown| ensures GroupMatches(next, grown[l]) {
      assert GroupMatches(entries, groups[l]);
      ClassSnocLink(entries, link, target, groups[l].origin);
      if l == k { assert groups[k].paths[0] == grown[k].paths[0]; }
    }
    GroupedAfter(entries, groups, grown, target, link);
  }

  lemma RegisterNew(base: Path, entries: seq<Entry>, groups: seq<Group>, target: Path, link: Path)
    requires WellFormedPlan(base, entries) && GroupsMatch(entries, groups)
    requires target in RegularPaths(entries) && link !in PathsOf(entries)
    requires forall k :: 0 <= k < |groups| ==> target !in groups[k].paths
    ensures GroupsMatch(entries + [HardlinkEntry(link, target)], groups + [Group(target, [target, link])])
  {
    var next := entries + [HardlinkEntry(link, target)];
    var grown := groups + [Group(target, [target, link])];
    GroupOfPath(base, entries, groups, target);
    NewGroupMatches(entries, target, link);
    hide GroupMatches, Origin, Class, WellFormedPlan;
    forall l | 0 <= l < |groups| ensures GroupMatches(next, grown[l]) {
      assert GroupMatches(entries, groups[l]);
      OldGroupMatches(entries, groups[l], target, link);
    }
    assert grown[|groups|].origin == target;
    GroupedAfter(entries, groups, grown, target, link);
  }

  lemma NewGroupMatches(entries: seq<Entry>, target: Path, link: Path)
    requires target in RegularPaths(entries) && link !in PathsOf(entries)
    requires Origin(entries, target) == target && Class(entries, target) == {target}
    ensures GroupMatches(entries + [HardlinkEntry(link, target)], Group(target, [target, link]))
  {
    ClassSnocLink(entries, link, target, target);
    SnocPaths(entries, HardlinkEntry(link, target));
  }

  lemma OldGroupMatches(entries: seq<Entry>, g: Group, target: Path, link: Path)
    requires GroupMatches(entries, g) && target in RegularPaths(entries) && link !in PathsOf(entries)
    requires g.origin != Origin(entries, target)
    ensures GroupMatches(entries + [HardlinkEntry(link, target)], g)
  {
    ClassSnocLink(entries, link, target, g.origin);
  }

  lemma GroupedAfter(entries: seq<Entry>, groups: seq<Group>, grown: seq<Group>, target: Path, link: Path)
    requires GroupsMatch(entries, groups) && link !in PathsOf(entries)
    requires |grown| >= |groups| && forall k :: 0 <= k < |groups| ==> grown[k].origin == groups[k].origin
    requires Grouped(grown, Origin(entries, target))
    ensures var next := entries + [HardlinkEntry(link, target)];
      forall h :: h in next && h.HardlinkEntry? ==> Grouped(grown, Origin(next, h.path))
  {
    var e := HardlinkEntry(link, target);
    var next := entries + [e];
    forall h | h in next && h.HardlinkEntry? ensures Grouped(grown, Origin(next, h.path)) {
      OriginSnoc(entries, e, h.path);
      if h.path != link {
        assert h in entries;
        var k :| 0 <= k < |groups| && groups[k].origin == Origin(entries, h.path);
        assert grown[k].origin == groups[k].origin;
      }
    }
  }

  /** Registering a link keeps the groups equal to the classes. */
  lemma RegisterKeepsGroups(base: Path, entries: seq<Entry>, groups: seq<Group>, target: Path, link: Path, next: seq<Group>)
    requires WellFormedPlan(base, entries) && GroupsMatch(entries, groups)
    requires target in RegularPaths(entries) && link !in PathsOf(entries)
    requires Registered(groups, target, link, next)
    ensures GroupsMatch(entries + [HardlinkEntry(link, target)], next)
  {
    if exists k :: 0 <= k < |groups| && target in groups[k].paths {
      var k :| 0 <= k < |groups| && target in groups[k].paths
        && next == groups[k := groups[k].(paths := groups[k].paths + [link])];
      RegisterExisting(base, entries, groups, target, link, k);
    } else {
      RegisterNew(base, entries, groups, target, link);
    }
  }

  // ---------------------------------------------------------------- reported groups

  predicate OriginLeq(a: Group, b: Group) {
    PathLeq(a.origin, b.origin)
  }

  function SortedGroup(g: Group): Group {
    Group(g.origin, Sort(PathLeq, g.paths))
  }

  /** materializeHardlinkGroups: each group's paths sorted, the groups sorted by origin. */
  function Materialized(groups: seq<Group>): seq<Group> {
    Sort(OriginLeq, seq(|groups|, k requires 0 <= k < |groups| => SortedGroup(groups[k])))
  }

  /** The reported groups: one per class with more than one path, listing exactly that class. */
  ghost predicate DescribesClasses(entries: seq<Entry>, groups: seq<Group>) {
    && (forall g :: g in groups ==> Enumerates(g.paths, Class(entries, g.origin)) && |g.paths| >= 2)
    && (forall g, h :: g in groups && h in groups && g.origin == h.origin ==> g == h)
    && (forall p :: p in RegularPaths(entries) && Class(entries, Origin(entries, p)) != {p} ==>
          exists g :: g in groups && g.origin == Origin(entries, p))
  }

  lemma OriginOrder()
    ensures TotalPreorder(OriginLeq)
  {
    PathOrder();
    forall a, b ensures OriginLeq(a, b) || OriginLeq(b, a) { Total(PathLeq, a.origin, b.origin); }
    forall a, b, c | OriginLeq(a, b) && OriginLeq(b, c) ensures OriginLeq(a, c) {
      Chain(PathLeq, a.origin, b.origin, c.origin);
    }
  }

  lemma SortingKeepsEnumeration(s: seq<Path>, paths: set<Path>)
    requires Enumerates(s, paths)
    ensures Enumerates(Sort(PathLeq, s), paths) && |Sort(PathLeq, s)| == |s|
  {
    PathOrder();
    SortIsSorted(PathLeq, s);
    SortMembers(PathLeq, s);
    DistinctCounts(s);
    DistinctCounts(Sort(PathLeq, s));
  }

  /** The reported groups are the classes. */
  lemma MaterializedDescribes(base: Path, entries: seq<Entry>, groups: seq<Group>)
    requires WellFormedPlan(base, entries) && GroupsMatch(entries, groups)
    ensures DescribesClasses(entries, Materialized(groups))
  {
    var sorted := seq(|groups|, k requires 0 <= k < |groups| => SortedGroup(groups[k]));
    OriginOrder();
    SortMembers(OriginLeq, sorted);
    var result := Materialized(groups);
    hide Sort, Sorted;
    forall g | g in result ensures Enumerates(g.paths, Class(entries, g.origin)) && |g.paths| >= 2 {
      var k :| 0 <= k < |sorted| && sorted[k] == g;
      assert GroupMatches(entries, groups[k]);
      SortingKeepsEnumeration(groups[k].paths, Class(entries, g.origin));
    }
    forall p | p in RegularPaths(entries) && Class(entries, Origin(entries, p)) != {p}
      ensures exists g :: g in result && g.origin == Origin(entries, p)
    {
      GroupOfPath(base, entries, groups, p);
      var k :| 0 <= k < |groups| && p in groups[k].paths;
      assert sorted[k] in sorted && sorted[k] in result;
    }
  }

  /** Each reported group starts from a plain file entry, and no path is in two groups. */
  lemma GroupsAreDisjointFiles(base: Path, entries: seq<Entry>, groups: seq<Group>)
    requires WellFormedPlan(base, entries) && DescribesClasses(entries, groups)
    ensures forall g :: g in groups ==>
      g.origin in g.paths && exists f :: f in entries && f.FileEntry? && f.path == g.origin
    ensures forall g, h, p :: g in groups && h in groups && p in g.paths && p in h.paths ==> g == h
  {
    forall g | g in groups
      ensures g.origin in g.paths && exists f :: f in entries && f.FileEntry? && f.path == g.origin
    {
      assert Enumerates(g.paths, Class(entries, g.origin));
      var p := g.paths[0];
      assert p in g.paths && p in Class(entries, g.origin);
      OriginIsFile(base, entries, p);
    }
    forall g, h, p | g in groups && h in groups && p in g.paths && p in h.paths ensures g == h {
      assert p in Class(entries, g.origin) && p in Class(entries, h.origin);
    }
  }
}
