/**
  diff/collect.go: how the diff package sees hard links. Regular files met on a walk are grouped
  by file identity, and identities with more than one path are reported. The last lemma says
  that after applying a plan these are the plan's own hard link groups.
 */
module Hardlinks {
  import opened Sets
  import opened Sorting
  import opened Paths
  import opened FileSystem
  import opened PlanSpec
  import opened PlanApply
  import opened PlanGrowth
  import opened PlanRuns
  import opened PlanLinks

  /** canonicalNodePath: the path below the base; the base itself is not reported. */
  function Relative(base: Path, p: Path): Path
    requires base <= p
  {
    p[|base|..]
  }

  predicate Reported(fs: Fs, base: Path, r: Path) {
    r != [] && IsFile(fs, base + r)
  }

  /** What the identity map holds after visiting some paths. */
  ghost predicate Collected(m: map<nat, seq<Path>>, fs: Fs, base: Path, visited: seq<Path>) {
    && (forall id :: id in m ==> m[id] != [] && Distinct(m[id]))
    && (forall id, r :: id in m && r in m[id] ==> base + r in visited && Reported(fs, base, r) && fs.tree[base + r] == id)
    && (forall r :: base + r in visited && Reported(fs, base, r) ==>
          fs.tree[base + r] in m && r in m[fs.tree[base + r]])
  }

  lemma CollectOne(m: map<nat, seq<Path>>, fs: Fs, base: Path, visited: seq<Path>, r: Path)
    requires Collected(m, fs, base, visited) && Reported(fs, base, r) && base + r !in visited
    ensures var id := fs.tree[base + r];
            Collected(m[id := (if id in m then m[id] else []) + [r]], fs, base, visited + [base + r])
  {
    var id := fs.tree[base + r];
    var next := m[id := (if id in m then m[id] else []) + [r]];
    forall q | base + q in visited + [base + r] && Reported(fs, base, q)
      ensures fs.tree[base + q] in next && q in next[fs.tree[base + q]]
    {
      if base + q == base + r {
        assert q == (base + q)[|base|..] == r;
      } else {
        assert base + q in visited;
      }
    }
  }

  lemma SkipOne(m: map<nat, seq<Path>>, fs: Fs, base: Path, visited: seq<Path>, p: Path)
    requires Collected(m, fs, base, visited) && base <= p && !Reported(fs, base, Relative(base, p))
    ensures Collected(m, fs, base, visited + [p])
  {
    forall q | base + q in visited + [p] && Reported(fs, base, q) ensures base + q in visited {
      assert Relative(base, base + q) == q;
    }
  }

  ghost function Subtree(fs: Fs, base: Path): set<Path> {
    set p | p in fs.tree && base <= p
  }

  /** The walk of collectPaths, in whatever order the directories are read. */
  method CollectPaths(fs: Fs, base: Path, walk: seq<Path>) returns (hardlinkPathsByKey: map<nat, seq<Path>>)
    requires Enumerates(walk, Subtree(fs, base))
    ensures Collected(hardlinkPathsByKey, fs, base, walk)
  {
    hardlinkPathsByKey := map[];
    for i := 0 to |walk|
      invariant Collected(hardlinkPathsByKey, fs, base, walk[..i])
    {
      hide Collected, Distinct;
      var p := walk[i];
      assert p in walk && p in Subtree(fs, base);
      var nodePath := Relative(base, p);
      assert base + nodePath == p && walk[..i + 1] == walk[..i] + [p];
      if nodePath != [] && IsFile(fs, p) {
        assert walk[i] !in walk[..i];
        CollectOne(hardlinkPathsByKey, fs, base, walk[..i], nodePath);
        var identity := fs.tree[p];
        var earlier := if identity in hardlinkPathsByKey then hardlinkPathsByKey[identity] else [];
        hardlinkPathsByKey := hardlinkPathsByKey[identity := earlier + [nodePath]];
      } else {
        SkipOne(hardlinkPathsByKey, fs, base, walk[..i], p);
      }
    }
    assert walk[..|walk|] == walk;
  }

  /** The comparator groups are sorted by. */
  predicate FirstLeq(a: seq<Path>, b: seq<Path>) {
    a == [] || (b != [] && PathLeq(a[0], b[0]))
  }

  lemma FirstOrder()
    ensures TotalPreorder(FirstLeq)
  {
    PathOrder();
    forall a, b ensures FirstLeq(a, b) || FirstLeq(b, a) {
      if a != [] && b != [] { Total(PathLeq, a[0], b[0]); }
    }
    forall a, b, c | FirstLeq(a, b) && FirstLeq(b, c) ensures FirstLeq(a, c) {
      if a != [] { Chain(PathLeq, a[0], b[0], c[0]); }
    }
  }

  /** A group worth reporting: an identity in `ids` with two paths or more. */
  ghost predicate GroupFrom(m: map<nat, seq<Path>>, ids: set<nat>, g: seq<Path>) {
    exists id :: id in ids && id in m && |m[id]| >= 2 && g == Sort(PathLeq, m[id])
  }

  /** buildHardlinkGroups, whatever order the map is read in. */
  method BuildHardlinkGroups(pathsByIdentity: map<nat, seq<Path>>) returns (groups: seq<seq<Path>>)
    ensures forall g :: g in groups <==> GroupFrom(pathsByIdentity, pathsByIdentity.Keys, g)
    ensures Sorted(FirstLeq, groups)
  {
    groups := [];
    var unread := pathsByIdentity.Keys;
    while unread != {}
      invariant unread <= pathsByIdentity.Keys
      invariant forall g :: g in groups <==> GroupFrom(pathsByIdentity, pathsByIdentity.Keys - unread, g)
      decreases |unread|
    {
      var identity :| identity in unread;
      var paths := pathsByIdentity[identity];
      if |paths| >= 2 {
        groups := groups + [Sort(PathLeq, paths)];
      }
      unread := unread - {identity};
    }
    assert pathsByIdentity.Keys - unread == pathsByIdentity.Keys;
    FirstOrder();
    SortMembers(FirstLeq, groups);
    SortIsSorted(FirstLeq, groups);
    groups := Sort(FirstLeq, groups);
  }

  // ---------------------------------------------------------------- what is reported

  function Members(g: seq<Path>): set<Path> {
    set p | p in g
  }

  /** The regular files below the base that share the inode of `p`, as paths below the base. */
  ghost function Sharers(fs: Fs, base: Path, p: Path): set<Path>
    requires p in fs.tree
  {
    set q | q in fs.tree && base < q && IsFile(fs, q) && fs.tree[q] == fs.tree[p] :: Relative(base, q)
  }

  /** Every set of two or more regular paths below the base that are one file. */
  ghost function SharedSets(fs: Fs, base: Path): set<set<Path>> {
    set p | p in fs.tree && base < p && IsFile(fs, p) && |Sharers(fs, base, p)| >= 2 :: Sharers(fs, base, p)
  }

  ghost function MemberSets(groups: seq<seq<Path>>): set<set<Path>> {
    set g | g in groups :: Members(g)
  }

  lemma IdentityIsSharers(m: map<nat, seq<Path>>, fs: Fs, base: Path, walk: seq<Path>, id: nat, p: Path)
    requires Collected(m, fs, base, walk) && Enumerates(walk, Subtree(fs, base))
    requires id in m && p in fs.tree && base < p && IsFile(fs, p) && fs.tree[p] == id
    ensures Members(m[id]) == Sharers(fs, base, p) && |m[id]| == |Sharers(fs, base, p)|
  {
    forall r | r in Members(m[id]) ensures r in Sharers(fs, base, p) {
      assert base + r in walk && Relative(base, base + r) == r;
      assert base + r in Subtree(fs, base);
    }
    forall r | r in Sharers(fs, base, p) ensures r in Members(m[id]) {
      var q :| q in fs.tree && base < q && IsFile(fs, q) && fs.tree[q] == fs.tree[p] && Relative(base, q) == r;
      assert base + r == q && q in Subtree(fs, base);
    }
    DistinctSize(m[id]);
  }

  lemma {:induction false} DistinctSize(s: seq<Path>)
    requires Distinct(s)
    ensures |Members(s)| == |s|
  {
    if s != [] {
      var front, last := s[..|s| - 1], s[|s| - 1];
      DistinctSize(front);
      assert last !in front;
      assert Members(s) == Members(front) + {last} by { assert s == front + [last]; }
    }
  }

  lemma SortKeepsMembers(s: seq<Path>)
    ensures Members(Sort(PathLeq, s)) == Members(s)
  {
    PathOrder();
    SortMembers(PathLeq, s);
  }

  /** One reported group. */
  lemma GroupIsSharedSet(m: map<nat, seq<Path>>, fs: Fs, base: Path, walk: seq<Path>, g: seq<Path>)
    requires Collected(m, fs, base, walk) && Enumerates(walk, Subtree(fs, base)) && GroupFrom(m, m.Keys, g)
    ensures Members(g) in SharedSets(fs, base)
  {
    var id :| id in m && |m[id]| >= 2 && g == Sort(PathLeq, m[id]);
    SortKeepsMembers(m[id]);
    var r := m[id][0];
    assert r in m[id];
    var p := base + r;
    assert p in Subtree(fs, base);
    IdentityIsSharers(m, fs, base, walk, id, p);
  }

  lemma SharedSetIsGroup(m: map<nat, seq<Path>>, fs: Fs, base: Path, walk: seq<Path>, groups: seq<seq<Path>>, p: Path)
    requires Collected(m, fs, base, walk) && Enumerates(walk, Subtree(fs, base))
    requires forall g :: GroupFrom(m, m.Keys, g) ==> g in groups
    requires p in fs.tree && base < p && IsFile(fs, p) && |Sharers(fs, base, p)| >= 2
    ensures Sharers(fs, base, p) in MemberSets(groups)
  {
    var id := fs.tree[p];
    assert base + Relative(base, p) == p && p in Subtree(fs, base);
    IdentityIsSharers(m, fs, base, walk, id, p);
    SortKeepsMembers(m[id]);
    assert GroupFrom(m, m.Keys, Sort(PathLeq, m[id]));
  }

  /** The groups a diff reports are exactly the sets of names of shared files. */
  method ReportHardlinkGroups(fs: Fs, base: Path, walk: seq<Path>) returns (groups: seq<seq<Path>>)
    requires Enumerates(walk, Subtree(fs, base))
    ensures MemberSets(groups) == SharedSets(fs, base) && Sorted(FirstLeq, groups)
  {
    var m := CollectPaths(fs, base, walk);
    groups := BuildHardlinkGroups(m);
    hide Collected, GroupFrom, Sharers, Members, Enumerates;
    forall g | g in groups ensures Members(g) in SharedSets(fs, base) {
      GroupIsSharedSet(m, fs, base, walk, g);
    }
    forall s | s in SharedSets(fs, base) ensures s in MemberSets(groups) {
      var p :| p in fs.tree && base < p && IsFile(fs, p) && |Sharers(fs, base, p)| >= 2 && s == Sharers(fs, base, p);
      SharedSetIsGroup(m, fs, base, walk, groups, p);
    }
  }

  // ---------------------------------------------------------------- planned groups are reported groups

  /** The planned groups, as sets of paths below the base. */
  ghost function PlannedSets(base: Path, groups: seq<Group>): set<set<Path>> {
    set g | g in groups :: BelowBase(base, Members(g.paths))
  }

  ghost function BelowBase(base: Path, paths: set<Path>): set<Path> {
    set p | p in paths && base <= p :: Relative(base, p)
  }

  /** The regular files below the base are the plan's regular paths. */
  ghost predicate OnlyPlannedFiles(fs: Fs, base: Path, entries: seq<Entry>) {
    forall q :: q in fs.tree && base < q && IsFile(fs, q) <==> q in RegularPaths(entries)
  }

  lemma SharersAreClass(fs: Fs, base: Path, entries: seq<Entry>, p: Path)
    requires SharesOrigins(fs, entries) && OnlyPlannedFiles(fs, base, entries) && p in RegularPaths(entries)
    ensures p in fs.tree && Sharers(fs, base, p) == BelowBase(base, Class(entries, Origin(entries, p)))
  {
    assert p in fs.tree;
    forall r | r in Sharers(fs, base, p) ensures r in BelowBase(base, Class(entries, Origin(entries, p))) {
      var q :| q in fs.tree && base < q && IsFile(fs, q) && fs.tree[q] == fs.tree[p] && Relative(base, q) == r;
      assert q in Class(entries, Origin(entries, p));
    }
    forall r | r in BelowBase(base, Class(entries, Origin(entries, p))) ensures r in Sharers(fs, base, p) {
      var q :| q in Class(entries, Origin(entries, p)) && base <= q && Relative(base, q) == r;
      assert q in RegularPaths(entries);
    }
  }

  lemma TwoMembers(base: Path, paths: set<Path>, p: Path, q: Path)
    requires p in paths && q in paths && p != q && base <= p && base <= q
    ensures |BelowBase(base, paths)| >= 2
  {
    var a, b := Relative(base, p), Relative(base, q);
    assert base + a == p && base + b == q;
    assert {a, b} <= BelowBase(base, paths);
    SubsetSize({a, b}, BelowBase(base, paths));
  }

  lemma PlannedGroupIsShared(fs: Fs, base: Path, entries: seq<Entry>, groups: seq<Group>, g: Group)
    requires SharesOrigins(fs, entries) && OnlyPlannedFiles(fs, base, entries)
    requires DescribesClasses(entries, groups) && g in groups
    ensures BelowBase(base, Members(g.paths)) in SharedSets(fs, base)
  {
    assert Enumerates(g.paths, Class(entries, g.origin));
    var p, q := g.paths[0], g.paths[1];
    assert p in g.paths && q in g.paths && p != q;
    assert p in Class(entries, g.origin) && q in Class(entries, g.origin);
    SharersAreClass(fs, base, entries, p);
    assert Members(g.paths) == Class(entries, g.origin);
    TwoMembers(base, Class(entries, g.origin), p, q);
  }

  lemma SharedIsPlannedGroup(fs: Fs, base: Path, entries: seq<Entry>, groups: seq<Group>, p: Path)
    requires SharesOrigins(fs, entries) && OnlyPlannedFiles(fs, base, entries)
    requires DescribesClasses(entries, groups)
    requires p in fs.tree && base < p && IsFile(fs, p) && |Sharers(fs, base, p)| >= 2
    ensures Sharers(fs, base, p) in PlannedSets(base, groups)
  {
    SharersAreClass(fs, base, entries, p);
    assert BelowBase(base, {p}) == {Relative(base, p)};
    assert Class(entries, Origin(entries, p)) != {p};
    var g :| g in groups && g.origin == Origin(entries, p);
    assert Enumerates(g.paths, Class(entries, g.origin));
    assert Members(g.paths) == Class(entries, g.origin);
  }

  lemma SharedAsPlanned(fs: Fs, base: Path, entries: seq<Entry>, groups: seq<Group>)
    requires SharesOrigins(fs, entries) && OnlyPlannedFiles(fs, base, entries) && DescribesClasses(entries, groups)
    ensures SharedSets(fs, base) == PlannedSets(base, groups)
  {
    hide SharesOrigins, OnlyPlannedFiles, DescribesClasses, Sharers, BelowBase, Members;
    forall g | g in groups ensures BelowBase(base, Members(g.paths)) in SharedSets(fs, base) {
      PlannedGroupIsShared(fs, base, entries, groups, g);
    }
    forall s | s in SharedSets(fs, base) ensures s in PlannedSets(base, groups) {
      var p :| p in fs.tree && base < p && IsFile(fs, p) && |Sharers(fs, base, p)| >= 2 && s == Sharers(fs, base, p);
      SharedIsPlannedGroup(fs, base, entries, groups, p);
    }
  }

  /** After applying a plan to an empty base, the files below it are the planned ones. */
  lemma AppliedFiles(kernel: Kernel, mode: RunMode, base: Path, fs: Fs, entries: seq<Entry>)
    requires base != [] && Healthy(fs) && WellFormedPlan(base, entries) && NothingBelow(Prepared(mode, base, fs), base)
    requires ApplyPlan(kernel, mode, base, fs, entries).error.None?
    ensures OnlyPlannedFiles(ApplyPlan(kernel, mode, base, fs, entries).fs, base, entries)
  {
    RunResult(kernel, mode, base, fs, entries);
    RunPresent(kernel, mode, base, fs, entries);
    var start := Prepared(mode, base, fs);
    var forward := Forward(kernel, mode, base, start, entries);
    var finish := ApplyPlan(kernel, mode, base, fs, entries);
    hide ApplyPlan, Forward, Prepared;
    forall q ensures q in finish.fs.tree && base < q && IsFile(finish.fs, q) <==> q in RegularPaths(entries) {
      if q in finish.fs.tree && base < q && IsFile(finish.fs, q) {
        assert q in PathsOf(entries);
      } else if q in RegularPaths(entries) {
        RegularBelowBase(base, entries, q);
        RegularPresent(finish.fs, entries, q);
      }
    }
  }

  lemma {:induction false} RegularBelowBase(base: Path, entries: seq<Entry>, q: Path)
    requires WellFormedPlan(base, entries) && q in RegularPaths(entries)
    ensures base < q
    decreases entries
  {
    var front, last := entries[..|entries| - 1], entries[|entries| - 1];
    assert entries == front + [last];
    SnocPaths(front, last);
    if q in RegularPaths(front) { RegularBelowBase(base, front, q); }
  }

  /**
    Plan, apply, observe: for every plan whose groups describe its classes, whenever it applies
    to an empty base, in any mode, the sets of names that share a file are the planned groups.
   */
  lemma AppliedGroupsAreObserved(kernel: Kernel, mode: RunMode, base: Path, fs: Fs, entries: seq<Entry>, groups: seq<Group>)
    requires base != [] && Healthy(fs) && WellFormedPlan(base, entries) && NothingBelow(Prepared(mode, base, fs), base)
    requires DescribesClasses(entries, groups) && ApplyPlan(kernel, mode, base, fs, entries).error.None?
    ensures SharedSets(ApplyPlan(kernel, mode, base, fs, entries).fs, base) == PlannedSets(base, groups)
  {
    AppliedShares(kernel, mode, base, fs, entries);
    AppliedFiles(kernel, mode, base, fs, entries);
    hide ApplyPlan, Prepared, SharesOrigins, OnlyPlannedFiles;
    SharedAsPlanned(ApplyPlan(kernel, mode, base, fs, entries).fs, base, entries, groups);
  }

  /** And applicable plans do apply. */
  lemma PlannedGroupsAreObserved(kernel: Kernel, mode: RunMode, base: Path, fs: Fs, entries: seq<Entry>, groups: seq<Group>)
    requires base != [] && Healthy(fs) && Usable(Prepared(mode, base, fs), base) && !mode.UnknownMode?
    requires WellFormedPlan(base, entries) && AllApplicable(kernel, entries) && DescribesClasses(entries, groups)
    ensures ApplyPlan(kernel, mode, base, fs, entries).error.None?
    ensures SharedSets(ApplyPlan(kernel, mode, base, fs, entries).fs, base) == PlannedSets(base, groups)
  {
    PlanSucceeds(kernel, mode, base, fs, entries);
    AppliedGroupsAreObserved(kernel, mode, base, fs, entries, groups);
  }

  /** Some walk over the tree below the base; the order is the file system's. */
  method WalkBelow(fs: Fs, base: Path) returns (walk: seq<Path>)
    ensures Enumerates(walk, Subtree(fs, base))
  {
    walk := [];
    var rest := fs.tree.Keys;
    while rest != {}
      invariant rest <= fs.tree.Keys && Distinct(walk)
      invariant forall p :: p in walk <==> p in Subtree(fs, base) && p !in rest
      decreases rest
    {
      var p :| p in rest;
      rest := rest - {p};
      if base <= p { walk := walk + [p]; }
    }
  }
}
