/**
  coverage_enumerator.go's `coveragePlanBuilder`. It can fail only by a path collision. Ghost
  state records the targets of dangling links; `Claimed` is every path planned or promised to
  dangle, and the invariants say where claimed paths can be.
 */
module CoverageBuilder {
  import opened Wrappers
  import opened Sorting
  import opened Paths
  import opened FileSystem
  import opened PlanSpec
  import opened ContentPatterns
  import opened CoveragePlan

  // ---------------------------------------------------------------- invariants, on values

  ghost predicate AllAllowed(enabled: set<Capability>, entries: seq<Entry>) {
    forall e :: e in entries ==> Allowed(enabled, e)
  }

  ghost predicate Sound(base: Path, enabled: set<Capability>, entries: seq<Entry>, used: set<Path>,
                        dangling: set<Path>, groups: seq<Group>)
  {
    && Canonical(base)
    && WellFormedPlan(base, entries)
    && used == PathsOf(entries)
    && dangling !! used
    && GroupsMatch(entries, groups)
    && AllAllowed(enabled, entries)
  }

  /** registerHardlinkGroup has been called for every group. */
  ghost predicate Reported(hardlinks: seq<Group>, groups: seq<Group>) {
    |hardlinks| == |groups| && forall k :: 0 <= k < |groups| ==> hardlinks[k] == SortedGroup(groups[k])
  }

  /** Below `root` there are only the cells opened so far and some fixed names. */
  ghost predicate Cells(claimed: set<Path>, root: Path, t: SubTree, next: nat, fixed: set<string>) {
    forall q :: q in claimed && root < q ==> q[|root|] in fixed || OpenedCell(t, next, q[|root|])
  }

  predicate OpenedCell(t: SubTree, next: nat, name: string) {
    exists k :: 0 <= k < next && name == CellName(t, k)
  }

  /** Directly or not, everything below `dir` goes through one of `names`. */
  ghost predicate OnlyThrough(claimed: set<Path>, dir: Path, names: set<string>) {
    forall q :: q in claimed && dir < q ==> q[|dir|] in names
  }

  /** Claims made since are all at or below `dir`. */
  ghost predicate Within(before: set<Path>, after: set<Path>, dir: Path) {
    forall q :: q in after ==> q in before || dir <= q
  }

  lemma ChildOf(dir: Path, name: string)
    ensures dir < dir + [name] && (dir + [name])[|dir|] == name && Parent(dir + [name]) == dir
  {
  }

  /** What lies at or below a child goes through the child's name. */
  lemma Through(dir: Path, name: string)
    ensures forall q :: dir + [name] <= q ==> dir < q && q[|dir|] == name
  {
    forall q | dir + [name] <= q ensures dir < q && q[|dir|] == name {
      assert (dir + [name])[|dir|] == name;
    }
  }

  /** A name not yet used below `dir` gives an unclaimed path with nothing below it. */
  lemma UnclaimedChild(claimed: set<Path>, dir: Path, names: set<string>, name: string)
    requires OnlyThrough(claimed, dir, names) && name !in names
    ensures forall q :: q in claimed ==> !(dir + [name] <= q)
  {
    Through(dir, name);
  }

  lemma UnclaimedCell(claimed: set<Path>, root: Path, t: SubTree, next: nat, fixed: set<string>)
    requires Cells(claimed, root, t, next, fixed) && CellName(t, next) !in fixed
    ensures forall q :: q in claimed ==> !(root + [CellName(t, next)] <= q)
  {
    var name := CellName(t, next);
    if OpenedCell(t, next, name) {
      var k :| 0 <= k < next && name == CellName(t, k);
      CellNamesDiffer(t, next, k);
    }
    Through(root, name);
  }

  /** Work inside one cell keeps the sub-tree made of cells. */
  lemma CellsKept(before: set<Path>, after: set<Path>, root: Path, t: SubTree, next: nat, fixed: set<string>)
    requires Cells(before, root, t, next, fixed) && Within(before, after, root + [CellName(t, next)])
    ensures Cells(after, root, t, next + 1, fixed)
  {
    var name := CellName(t, next);
    forall q | q in after && root < q ensures q[|root|] in fixed || OpenedCell(t, next + 1, q[|root|]) {
      if q in before {
        if OpenedCell(t, next, q[|root|]) {
          var k :| 0 <= k < next && q[|root|] == CellName(t, k);
        }
      } else {
        assert q[|root|] == (root + [name])[|root|] == name;
      }
    }
  }

  lemma WithinTransitive(a: set<Path>, b: set<Path>, c: set<Path>, outer: Path, inner: Path)
    requires Within(a, b, outer) && Within(b, c, inner) && outer <= inner
    ensures Within(a, c, outer)
  {
    forall q | q in c ensures q in a || outer <= q {
      if q !in a && q !in b { assert outer <= inner <= q; }
    }
  }

  /** Appending an entry that is not a link. */
  lemma AppendSound(base: Path, enabled: set<Capability>, entries: seq<Entry>, used: set<Path>, dangling: set<Path>,
                    groups: seq<Group>, e: Entry)
    requires Sound(base, enabled, entries, used, dangling, groups)
    requires MayFollow(base, entries, e) && !e.HardlinkEntry? && e.path !in dangling && Allowed(enabled, e)
    ensures Sound(base, enabled, entries + [e], used + {e.path}, dangling, groups)
    ensures DirPaths(entries + [e]) == DirPaths(entries) + if e.DirEntry? then {e.path} else {}
    ensures RegularPaths(entries + [e]) == RegularPaths(entries) + if Regular(e) then {e.path} else {}
  {
    SnocPaths(entries, e);
    WellFormedSnoc(base, entries, e);
    assert e.path !in PathsOf(entries);
    OtherEntryKeepsGroups(base, entries, groups, e);
    hide WellFormedPlan, GroupsMatch, MayFollow, Allowed;
  }

  /** Appending a link to a target in some group, or to one in none. */
  lemma AppendLinkSound(base: Path, enabled: set<Capability>, entries: seq<Entry>, used: set<Path>, dangling: set<Path>,
                        groups: seq<Group>, link: Path, target: Path, next: seq<Group>)
    requires Sound(base, enabled, entries, used, dangling, groups)
    requires MayFollow(base, entries, HardlinkEntry(link, target)) && link !in dangling && HardlinksCap in enabled
    requires target in RegularPaths(entries) && Registered(groups, target, link, next)
    ensures Sound(base, enabled, entries + [HardlinkEntry(link, target)], used + {link}, dangling, next)
    ensures DirPaths(entries + [HardlinkEntry(link, target)]) == DirPaths(entries)
    ensures target in RegularPaths(entries + [HardlinkEntry(link, target)])
  {
    var e := HardlinkEntry(link, target);
    SnocPaths(entries, e);
    WellFormedSnoc(base, entries, e);
    assert e.path !in PathsOf(entries);
    RegisterKeepsGroups(base, entries, groups, target, link, next);
    hide WellFormedPlan, GroupsMatch, MayFollow;
  }

  lemma ChildMayFollow(base: Path, entries: seq<Entry>, dir: Path, name: string, e: Entry)
    requires WellFormedPlan(base, entries) && dir in DirPaths(entries) && ValidName(name)
    requires e.path == dir + [name] && e.path !in PathsOf(entries)
    requires e.HardlinkEntry? ==> e.source in RegularPaths(entries)
    ensures MayFollow(base, entries, e)
  {
    assert dir in PathsOf(entries);
    PlannedIsCanonical(base, entries, dir);
    ChildOf(dir, name);
  }

  /** Grouped paths are planned paths. */
  lemma GroupedIsPlanned(entries: seq<Entry>, groups: seq<Group>)
    requires GroupsMatch(entries, groups)
    ensures forall k, p :: 0 <= k < |groups| && p in groups[k].paths ==> p in PathsOf(entries)
  {
    forall k, p | 0 <= k < |groups| && p in groups[k].paths ensures p in PathsOf(entries) {
      assert GroupMatches(entries, groups[k]);
      assert p in Class(entries, groups[k].origin);
    }
  }

  lemma OnlyThroughGrows(before: set<Path>, after: set<Path>, dir: Path, names: set<string>, name: string)
    requires OnlyThrough(before, dir, names) && after == before + {dir + [name]}
    ensures OnlyThrough(after, dir, names + {name})
  {
    forall q | q in after && dir < q ensures q[|dir|] in names + {name} {
      if q !in before { assert q == dir + [name]; }
    }
  }

  // ---------------------------------------------------------------- the builder

  class Builder {
    const base: Path
    const enabled: set<Capability>

    var entries: seq<Entry>
    var hardlinks: seq<Group>
    var used: set<Path>
    var nextCellIndex: nat

    ghost var groups: seq<Group>
    ghost var dangling: set<Path>

    ghost function Claimed(): set<Path>
      reads this
    {
      used + dangling
    }

    ghost predicate Valid()
      reads this
    {
      Sound(base, enabled, entries, used, dangling, groups)
    }

    ghost predicate Settled()
      reads this
    {
      Reported(hardlinks, groups)
    }

    constructor (base: Path, enabled: set<Capability>)
      requires Canonical(base)
      ensures this.base == base && this.enabled == enabled && Valid() && Settled()
      ensures entries == [] && Claimed() == {} && nextCellIndex == 0
    {
      this.base, this.enabled := base, enabled;
      entries, hardlinks, used, nextCellIndex := [], [], {}, 0;
      groups, dangling := [], {};
    }

    /** registerPath */
    method RegisterPath(path: Path) returns (error: Option<CoverageError>)
      modifies this`used
      ensures error.Some? <==> path in old(used)
      ensures error.None? ==> used == old(used) + {path}
      ensures error.Some? ==> used == old(used)
    {
      if path in used {
        return Some(PathCollision(path));
      }
      used := used + {path};
      return None;
    }

    /** The shared tail of the append methods: register, then append. */
    method Append(e: Entry) returns (error: Option<CoverageError>)
      modifies this`used, this`entries
      ensures error.Some? <==> e.path in old(used)
      ensures error.None? ==> used == old(used) + {e.path} && entries == old(entries) + [e]
      ensures error.Some? ==> used == old(used) && entries == old(entries)
    {
      error := RegisterPath(e.path);
      if error.Some? { return; }
      entries := entries + [e];
    }

    /** What a successful append of an unlinked entry below a planned directory leaves. */
    twostate predicate Appended(dir: Path, name: string, isDir: bool, isFile: bool)
      reads this
    {
      && Valid()
      && Claimed() == old(Claimed()) + {dir + [name]}
      && DirPaths(entries) == old(DirPaths(entries)) + (if isDir then {dir + [name]} else {})
      && RegularPaths(entries) == old(RegularPaths(entries)) + (if isFile then {dir + [name]} else {})
    }

    method AppendBelow(dir: Path, name: string, e: Entry) returns (error: Option<CoverageError>)
      requires Valid() && dir in DirPaths(entries) && ValidName(name) && dir + [name] !in Claimed()
      requires e.path == dir + [name] && !e.HardlinkEntry? && Allowed(enabled, e)
      modifies this`used, this`entries
      ensures error.None? && Appended(dir, name, e.DirEntry?, Regular(e))
      ensures entries == old(entries) + [e]
    {
      hide WellFormedPlan, GroupsMatch, MayFollow, Allowed, AllAllowed;
      ChildMayFollow(base, entries, dir, name, e);
      AppendSound(base, enabled, entries, used, dangling, groups, e);
      error := Append(e);
    }

    /** appendDir for the base path, the first entry of all. */
    method AppendBase(mode: nat) returns (error: Option<CoverageError>)
      requires Valid() && Settled() && entries == [] && Claimed() == {}
      modifies this`used, this`entries
      ensures error.None? && Valid() && Settled() && Claimed() == {base} && DirPaths(entries) == {base}
    {
      var e := DirEntry(base, mode, Stamped(enabled, NO_METADATA));
      AppendSound(base, enabled, entries, used, dangling, groups, e);
      error := Append(e);
    }

    /** A path some link dangles at; ghost. */
    ghost method PromiseDangling(p: Path)
      requires Valid() && p !in used
      modifies this`dangling
      ensures Valid() && dangling == old(dangling) + {p} && Claimed() == old(Claimed()) + {p}
    {
      dangling := dangling + {p};
    }

    /** appendDir */
    method AppendDir(dir: Path, name: string, mode: nat, metadata: Metadata) returns (error: Option<CoverageError>)
      requires Valid() && dir in DirPaths(entries) && ValidName(name) && dir + [name] !in Claimed()
      requires GatedMetadata(enabled, Stamped(enabled, metadata))
      modifies this`used, this`entries
      ensures error.None? && Appended(dir, name, true, false)
      ensures entries == old(entries) + [DirEntry(dir + [name], mode, Stamped(enabled, metadata))]
    {
      error := AppendBelow(dir, name, DirEntry(dir + [name], mode, Stamped(enabled, metadata)));
    }

    /** appendFile */
    method AppendFile(dir: Path, name: string, mode: nat, data: seq<Byte>, content: Option<Content>, metadata: Metadata)
        returns (error: Option<CoverageError>)
      requires Valid() && dir in DirPaths(entries) && ValidName(name) && dir + [name] !in Claimed()
      requires FileMetadata(enabled, Stamped(enabled, metadata)) && (content.Some? ==> GoodContent(content.value))
      modifies this`used, this`entries
      ensures error.None? && Appended(dir, name, false, true)
      ensures entries == old(entries) + [FileEntry(dir + [name], mode, data, content, Stamped(enabled, metadata))]
    {
      error := AppendBelow(dir, name, FileEntry(dir + [name], mode, data, content, Stamped(enabled, metadata)));
    }

    /** appendSymlink, with deterministicLinkMetadata */
    method AppendSymlink(dir: Path, name: string, target: string) returns (error: Option<CoverageError>)
      requires Valid() && dir in DirPaths(entries) && ValidName(name) && dir + [name] !in Claimed()
      requires SymlinksCap in enabled
      modifies this`used, this`entries
      ensures error.None? && Appended(dir, name, false, false)
      ensures entries == old(entries) + [SymlinkEntry(dir + [name], target, Stamped(enabled, NO_METADATA))]
    {
      error := AppendBelow(dir, name, SymlinkEntry(dir + [name], target, Stamped(enabled, NO_METADATA)));
    }

    /** appendSpecial */
    method AppendSpecial(dir: Path, name: string, mode: nat, kind: SpecialType) returns (error: Option<CoverageError>)
      requires Valid() && dir in DirPaths(entries) && ValidName(name) && dir + [name] !in Claimed()
      requires SpecialAllowed(enabled, kind)
      modifies this`used, this`entries
      ensures error.None? && Appended(dir, name, false, false)
      ensures entries == old(entries) + [SpecialFor(enabled, dir + [name], mode, kind)]
    {
      var device := IsDevice(kind);
      error := AppendBelow(dir, name,
        SpecialEntry(dir + [name], mode, kind, if device then 1 else 0, if device then 3 else 0, Stamped(enabled, NO_METADATA)));
    }

    /** appendHardlink for one mirror of `origin`; `earlier` are the mirrors before it. */
    method AppendMirror(dir: Path, name: string, origin: Path, ghost earlier: seq<Path>) returns (error: Option<CoverageError>)
      requires Valid() && dir in DirPaths(entries) && ValidName(name) && dir + [name] !in Claimed()
      requires HardlinksCap in enabled && origin in RegularPaths(entries)
      requires if earlier == [] then forall k :: 0 <= k < |groups| ==> origin !in groups[k].paths
               else |groups| > 0 && groups[|groups| - 1] == Group(origin, [origin] + earlier)
      modifies this`used, this`entries, this`groups
      ensures error.None? && Valid()
      ensures Claimed() == old(Claimed()) + {dir + [name]} && DirPaths(entries) == old(DirPaths(entries))
      ensures origin in RegularPaths(entries) && entries == old(entries) + [HardlinkEntry(dir + [name], origin)]
      ensures groups == (if earlier == [] then old(groups) else old(groups)[..|old(groups)| - 1])
                        + [Group(origin, [origin] + earlier + [dir + [name]])]
    {
      hide WellFormedPlan, GroupsMatch, MayFollow, AllAllowed;
      var link := dir + [name];
      ghost var next := (if earlier == [] then groups else groups[..|groups| - 1]) + [Group(origin, [origin] + earlier + [link])];
      MirrorRegisters(groups, origin, earlier, link);
      ChildMayFollow(base, entries, dir, name, HardlinkEntry(link, origin));
      AppendLinkSound(base, enabled, entries, used, dangling, groups, link, origin, next);
      error := Append(HardlinkEntry(link, origin));
      groups := next;
    }

    /** registerHardlinkGroup */
    method RegisterHardlinkGroup(origin: Path, mirrors: seq<Path>)
      requires |groups| > 0 && groups[|groups| - 1] == Group(origin, [origin] + mirrors)
      requires Reported(hardlinks, groups[..|groups| - 1])
      modifies this`hardlinks
      ensures Settled()
    {
      var paths := Sort(PathLeq, [origin] + mirrors);
      hardlinks := hardlinks + [Group(origin, paths)];
    }

    /** buildRunPlan: sorts the groups, and their paths once more. */
    method BuildRunPlan() returns (plan: seq<Entry>, reported: seq<Group>)
      requires Settled()
      ensures plan == entries && reported == Materialized(groups)
    {
      var copies: seq<Group> := [];
      for k := 0 to |hardlinks|
        invariant |copies| == k && forall j :: 0 <= j < k ==> copies[j] == SortedGroup(groups[j])
      {
        SortTwice(groups[k].paths);
        copies := copies + [Group(hardlinks[k].origin, Sort(PathLeq, hardlinks[k].paths))];
      }
      ghost var values := groups;
      assert copies == seq(|values|, k requires 0 <= k < |values| => SortedGroup(values[k]));
      return entries, Sort(OriginLeq, copies);
    }
  }

  lemma SortTwice(s: seq<Path>)
    ensures Sort(PathLeq, Sort(PathLeq, s)) == Sort(PathLeq, s)
  {
    PathOrder();
    SortIsSorted(PathLeq, s);
    SortFixpoint(PathLeq, Sort(PathLeq, s));
  }

  lemma MirrorRegisters(groups: seq<Group>, origin: Path, earlier: seq<Path>, link: Path)
    requires if earlier == [] then forall k :: 0 <= k < |groups| ==> origin !in groups[k].paths
             else |groups| > 0 && groups[|groups| - 1] == Group(origin, [origin] + earlier)
    ensures Registered(groups, origin, link,
      (if earlier == [] then groups else groups[..|groups| - 1]) + [Group(origin, [origin] + earlier + [link])])
  {
    if earlier == [] {
      assert [origin] + earlier + [link] == [origin, link];
    } else {
      var k := |groups| - 1;
      var next := groups[..k] + [Group(origin, [origin] + earlier + [link])];
      assert origin in groups[k].paths;
      assert next == groups[k := groups[k].(paths := groups[k].paths + [link])];
    }
  }
}
