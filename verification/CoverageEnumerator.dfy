/**
  coverage_enumerator.go: `enumerateCoveragePlan` and its eight sub-trees. Each test case gets a
  numbered wrapper directory, and everything planned for it lies below that wrapper.
 */
module CoverageEnumerator {
  import opened Wrappers
  import opened Sorting
  import opened Paths
  import opened PlanSpec
  import opened ContentPatterns
  import opened CoverageContent
  import opened CoverageNaming
  import opened CoveragePlan
  import opened CoverageCells
  import opened CoverageBuilder

  // ---------------------------------------------------------------- where the builder stands

  /** Wrapper names never clash with the fixed names of a sub-tree. */
  ghost predicate Apart(t: SubTree, fixed: set<string>) {
    forall k: nat :: CellName(t, k) !in fixed
  }

  /** The builder is between two cells of a sub-tree. */
  ghost predicate InTree(b: Builder, root: Path, t: SubTree, fixed: set<string>)
    reads b
  {
    && b.Valid() && b.Settled() && root in DirPaths(b.entries)
    && Cells(b.Claimed(), root, t, b.nextCellIndex, fixed) && Apart(t, fixed)
  }

  /** What a stretch of work at or below `dir` keeps. */
  twostate predicate Kept(b: Builder, dir: Path)
    reads b
  {
    && b.Valid() && b.Settled()
    && Within(old(b.Claimed()), b.Claimed(), dir)
    && old(DirPaths(b.entries)) <= DirPaths(b.entries)
    && old(b.entries) <= b.entries && old(b.dangling) <= b.dangling
  }

  /** What the builder shows below the root of a sub-tree. */
  ghost function ViewOf(b: Builder, env: Environment, root: Path): View
    reads b
  {
    View(env, b.enabled, root, b.entries, b.dangling)
  }

  ghost predicate NothingIn(claimed: set<Path>, dir: Path) {
    OnlyThrough(claimed, dir, {})
  }

  lemma NotClaimed(claimed: set<Path>, dir: Path, names: set<string>, name: string)
    requires OnlyThrough(claimed, dir, names) && name !in names
    ensures dir + [name] !in claimed
  {
    UnclaimedChild(claimed, dir, names, name);
  }

  /** coverageCellWrapperDir and its appendDir */
  method OpenCell(b: Builder, t: SubTree, root: Path, ghost fixed: set<string>) returns (wrapper: Path, error: Option<CoverageError>)
    requires InTree(b, root, t, fixed)
    modifies b`used, b`entries, b`nextCellIndex
    ensures error.None? && b.Valid() && b.Settled()
    ensures wrapper == root + [CellName(t, old(b.nextCellIndex))] && b.nextCellIndex == old(b.nextCellIndex) + 1
    ensures b.Claimed() == old(b.Claimed()) + {wrapper} && NothingIn(b.Claimed(), wrapper)
    ensures DirPaths(b.entries) == old(DirPaths(b.entries)) + {wrapper}
    ensures IsCell(root, t, wrapper) && b.entries == old(b.entries) + [DirEntry(wrapper, DIR_MODE, Stamped(b.enabled, NO_METADATA))]
  {
    hide Sound, Cells, Apart, OnlyThrough, Reported, GatedMetadata, Stamped, CellName, ValidName, ACLFor;
    var name := CellName(t, b.nextCellIndex);
    CellNameValid(t, b.nextCellIndex);
    wrapper := root + [name];
    FreshWrapper(b.Claimed(), root, t, b.nextCellIndex, fixed);
    assert GatedMetadata(b.enabled, Stamped(b.enabled, NO_METADATA)) by { PlainIsGated(b.enabled); }
    b.nextCellIndex := b.nextCellIndex + 1;
    error := b.AppendDir(root, name, DIR_MODE, NO_METADATA);
  }

  lemma PlainIsGated(enabled: set<Capability>)
    ensures FileMetadata(enabled, Stamped(enabled, NO_METADATA))
  {
  }

  lemma FreshWrapper(claimed: set<Path>, root: Path, t: SubTree, next: nat, fixed: set<string>)
    requires Cells(claimed, root, t, next, fixed) && Apart(t, fixed)
    ensures root + [CellName(t, next)] !in claimed
    ensures NothingIn(claimed + {root + [CellName(t, next)]}, root + [CellName(t, next)])
  {
    UnclaimedCell(claimed, root, t, next, fixed);
  }

  /** Work that stayed below the wrapper leaves the sub-tree between two cells again. */
  lemma CellDone(b: Builder, before: set<Path>, root: Path, t: SubTree, next: nat, fixed: set<string>)
    requires b.Valid() && b.Settled() && root in DirPaths(b.entries) && b.nextCellIndex == next + 1
    requires Cells(before, root, t, next, fixed) && Apart(t, fixed)
    requires Within(before, b.Claimed(), root + [CellName(t, next)])
    ensures InTree(b, root, t, fixed) && Within(before, b.Claimed(), root)
  {
    CellsKept(before, b.Claimed(), root, t, next, fixed);
    WithinParent(before, b.Claimed(), root, CellName(t, next));
  }

  lemma WithinParent(before: set<Path>, after: set<Path>, dir: Path, name: string)
    requires Within(before, after, dir + [name])
    ensures Within(before, after, dir)
  {
    Through(dir, name);
  }

  // ---------------------------------------------------------------- one-leaf cells

  predicate LeafAllowed(enabled: set<Capability>, leaf: Leaf) {
    && GatedMetadata(enabled, Stamped(enabled, leaf.metadata))
    && (leaf.FileLeaf? ==> FileMetadata(enabled, Stamped(enabled, leaf.metadata)))
    && (leaf.FileLeaf? && leaf.content.Some? ==> GoodContent(leaf.content.value))
  }

  /** A wrapper holding one directory or file with a name of the given class. */
  method EmitLeafCell(b: Builder, env: Environment, t: SubTree, root: Path, cls: NameClass, cell: CellID, leaf: Leaf)
      returns (error: Option<CoverageError>)
    requires InTree(b, root, t, {}) && LeafAllowed(b.enabled, leaf)
    modifies b
    ensures error.None? && InTree(b, root, t, {}) && Kept(b, root)
    ensures LeafShown(ViewOf(b, env, root), t, cls, cell, leaf)
  {
    hide Sound, Cells, Apart, OnlyThrough, Within, Reported, CellName, LeafEntry, LeafAllowed, CellNamed, IsCell, Stamped;
    ghost var before, next := b.Claimed(), b.nextCellIndex;
    var wrapper;
    wrapper, error := OpenCell(b, t, root, {});
    if error.Some? { return; }
    ghost var mid := b.Claimed();
    ghost var name;
    error, name := EmitLeaf(b, env, wrapper, cls, cell, leaf);
    WithinAdd(before, mid, b.Claimed(), wrapper, name);
    CellDone(b, before, root, t, next, {});
    assert LeafAt(ViewOf(b, env, root), t, cls, cell, leaf, wrapper, name);
  }

  /** The directory or file itself. */
  method EmitLeaf(b: Builder, env: Environment, wrapper: Path, cls: NameClass, cell: CellID, leaf: Leaf)
      returns (error: Option<CoverageError>, ghost named: string)
    requires b.Valid() && b.Settled() && wrapper in DirPaths(b.entries) && NothingIn(b.Claimed(), wrapper)
    requires LeafAllowed(b.enabled, leaf)
    modifies b`used, b`entries
    ensures error.None? && b.Valid() && b.Settled()
    ensures CellNamed(env, named, cls, cell) && b.entries == old(b.entries) + [LeafEntry(b.enabled, wrapper + [named], leaf)]
    ensures b.Claimed() == old(b.Claimed()) + {wrapper + [named]} && old(DirPaths(b.entries)) <= DirPaths(b.entries)
  {
    hide Sound, OnlyThrough, Reported, FileMetadata, GatedMetadata, Stamped, ValidName, NamesCell, CellNamed, GoodContent;
    var name := NameCell(env, cls, cell);
    named := name;
    NamedIsValid(name, cell);
    NotClaimed(b.Claimed(), wrapper, {}, name);
    match leaf {
      case DirLeaf(mode, metadata) =>
        error := b.AppendDir(wrapper, name, mode, metadata);
      case FileLeaf(mode, data, content, metadata) =>
        error := b.AppendFile(wrapper, name, mode, data, content, metadata);
    }
  }

  /** coverageDeterministicName, as the sub-trees call it. */
  method NameCell(env: Environment, cls: NameClass, cell: CellID) returns (name: string)
    ensures CellNamed(env, name, cls, cell) && NamesCell(name, cell)
  {
    name := DeterministicName(env.seedOf, cls, NAME_DEFAULT_LEN, cell);
  }

  lemma WithinAdd(before: set<Path>, mid: set<Path>, after: set<Path>, dir: Path, name: string)
    requires mid <= before + {dir} && after == mid + {dir + [name]}
    ensures Within(before, after, dir)
  {
  }

  // ---------------------------------------------------------------- symlink cells

  /** emitCoverageSymlinkCell, in a fresh wrapper. */
  method EmitSymlinkCell(b: Builder, env: Environment, ghost root: Path, wrapper: Path, anchorFile: Path, anchorSymlink: Path,
                         strategy: Strategy, cls: NameClass, cell: CellID) returns (error: Option<CoverageError>)
    requires b.Valid() && b.Settled() && wrapper in DirPaths(b.entries) && NothingIn(b.Claimed(), wrapper)
    requires SymlinksCap in b.enabled && !strategy.UnknownStrategy?
    requires IsCell(root, Symlinks, wrapper) && anchorFile == root + [ANCHOR_FILE] && anchorSymlink == root + [ANCHOR_SYMLINK]
    modifies b`used, b`entries, b`dangling
    ensures error.None? && Kept(b, wrapper)
    ensures LinkShown(ViewOf(b, env, root), strategy, cls, cell)
  {
    hide Sound, OnlyThrough, Within, Reported, ValidName, NamesCell, Render, RelString, IsCell, CellNamed, Stamped;
    var name := NameCell(env, cls, cell);
    NamedIsValid(name, cell);
    match strategy {
      case Absolute =>
        error := EmitPlainLink(b, wrapper, name, Render(anchorFile));
      case Relative =>
        error := EmitPlainLink(b, wrapper, name, RelString(wrapper, anchorFile));
      case Dangling =>
        error := EmitDangling(b, env, root, wrapper, name, cell);
      case SelfReferential =>
        error := EmitPlainLink(b, wrapper, name, name);
      case Chained =>
        error := EmitPlainLink(b, wrapper, name, RelString(wrapper, anchorSymlink));
      case Cycle =>
        error := EmitCycle(b, env, root, wrapper, name, cls, cell);
    }
    assert LinkAt(ViewOf(b, env, root), strategy, wrapper, name);
  }

  /** A single link in a fresh wrapper. */
  method EmitPlainLink(b: Builder, wrapper: Path, name: string, target: string) returns (error: Option<CoverageError>)
    requires b.Valid() && b.Settled() && wrapper in DirPaths(b.entries) && NothingIn(b.Claimed(), wrapper)
    requires SymlinksCap in b.enabled && ValidName(name)
    modifies b`used, b`entries
    ensures error.None? && Kept(b, wrapper)
    ensures SymlinkEntry(wrapper + [name], target, Stamped(b.enabled, NO_METADATA)) in b.entries
  {
    hide Sound, OnlyThrough, Within, Reported, ValidName, Stamped;
    ghost var before := b.Claimed();
    error := EmitLink(b, wrapper, {}, name, target);
    WithinAdd(before, before, b.Claimed(), wrapper, name);
    assert b.entries[|b.entries| - 1] == SymlinkEntry(wrapper + [name], target, Stamped(b.enabled, NO_METADATA));
  }

  /** One more link in a directory that holds only `names` so far. */
  method EmitLink(b: Builder, wrapper: Path, ghost names: set<string>, name: string, target: string) returns (error: Option<CoverageError>)
    requires b.Valid() && b.Settled() && wrapper in DirPaths(b.entries) && OnlyThrough(b.Claimed(), wrapper, names)
    requires SymlinksCap in b.enabled && ValidName(name) && name !in names
    modifies b`used, b`entries
    ensures error.None? && b.Valid() && b.Settled() && DirPaths(b.entries) == old(DirPaths(b.entries))
    ensures b.Claimed() == old(b.Claimed()) + {wrapper + [name]} && OnlyThrough(b.Claimed(), wrapper, names + {name})
    ensures old(b.entries) <= b.entries
    ensures b.entries == old(b.entries) + [SymlinkEntry(wrapper + [name], target, Stamped(b.enabled, NO_METADATA))]
  {
    hide Sound, OnlyThrough, Reported, ValidName, Stamped;
    ghost var before := b.Claimed();
    NotClaimed(before, wrapper, names, name);
    error := b.AppendSymlink(wrapper, name, target);
    OnlyThroughGrows(before, b.Claimed(), wrapper, names, name);
  }

  /** A link to a sibling that is never planned. */
  method EmitDangling(b: Builder, env: Environment, ghost root: Path, wrapper: Path, name: string, cell: CellID)
      returns (error: Option<CoverageError>)
    requires b.Valid() && b.Settled() && wrapper in DirPaths(b.entries) && NothingIn(b.Claimed(), wrapper)
    requires SymlinksCap in b.enabled && NamesCell(name, cell)
    modifies b`used, b`entries, b`dangling
    ensures error.None? && Kept(b, wrapper)
    ensures LinkAt(ViewOf(b, env, root), Dangling, wrapper, name)
  {
    hide Sound, OnlyThrough, Within, Reported, ValidName, NamesCell, Render, Stamped;
    NamedIsValid(name, cell);
    ghost var before := b.Claimed();
    var target := DeterministicName(env.seedOf, Basic, NAME_DEFAULT_LEN, cell ^ 0xDEAD);
    Separated(name, cell, target, 0xDEAD);
    error := EmitLink(b, wrapper, {}, name, Render(wrapper + [target]));
    if error.Some? { return; }
    NotClaimed(b.Claimed(), wrapper, {} + {name}, target);
    b.PromiseDangling(wrapper + [target]);
    WithinTwo(before, b.Claimed(), wrapper, name, target);
  }

  /** Two links that name each other. */
  method EmitCycle(b: Builder, env: Environment, ghost root: Path, wrapper: Path, name: string, cls: NameClass, cell: CellID)
      returns (error: Option<CoverageError>)
    requires b.Valid() && b.Settled() && wrapper in DirPaths(b.entries) && NothingIn(b.Claimed(), wrapper)
    requires SymlinksCap in b.enabled && NamesCell(name, cell)
    modifies b`used, b`entries
    ensures error.None? && Kept(b, wrapper)
    ensures LinkAt(ViewOf(b, env, root), Cycle, wrapper, name)
  {
    hide Sound, OnlyThrough, Within, Reported, ValidName, NamesCell, Stamped;
    NamedIsValid(name, cell);
    ghost var before, start := b.Claimed(), b.entries;
    var name2 := DeterministicName(env.seedOf, cls, NAME_DEFAULT_LEN, cell ^ 0xBEEF);
    NamedIsValid(name2, cell ^ 0xBEEF);
    Separated(name, cell, name2, 0xBEEF);
    error := EmitLink(b, wrapper, {}, name, name2);
    if error.Some? { return; }
    error := EmitLink(b, wrapper, {} + {name}, name2, name);
    WithinTwo(before, b.Claimed(), wrapper, name, name2);
    CycleShows(ViewOf(b, env, root), start, wrapper, name, name2);
  }

  lemma CycleShows(v: View, start: seq<Entry>, wrapper: Path, name: string, other: string)
    requires name != other
    requires v.entries == start + [SymlinkEntry(wrapper + [name], other, Stamped(v.enabled, NO_METADATA))]
                          + [SymlinkEntry(wrapper + [other], name, Stamped(v.enabled, NO_METADATA))]
    ensures LinkAt(v, Cycle, wrapper, name)
  {
    hide Stamped;
    assert HasLink(v, wrapper + [name], other);
  }

  lemma WithinTwo(before: set<Path>, after: set<Path>, dir: Path, name: string, other: string)
    requires after == before + {dir + [name]} + {dir + [other]}
    ensures Within(before, after, dir)
  {
  }

  /** A cell and the cell derived from it by a non-zero 32-bit mask never share a name. */
  lemma Separated(name: string, cell: CellID, other: string, mask: CellID)
    requires NamesCell(name, cell) && NamesCell(other, cell ^ mask) && Low32(mask) != 0
    ensures name != other
  {
    XorZero(cell);
    MasksSeparate(cell, 0, mask);
    NamesDiffer(name, cell, other, cell ^ mask);
  }

  // ---------------------------------------------------------------- hard link cells

  lemma MasksDiffer(m: nat, k: nat)
    requires m < 4 && k < 4 && m != k
    ensures Low32(Mask(m)) != Low32(Mask(k))
  {
  }

  /** The names given out in one hard link cell: the m-th one carries the m-th mask. */
  ghost predicate MaskedNames(names: seq<string>, cell: CellID) {
    |names| <= 4 && forall m :: 0 <= m < |names| ==> NamesCell(names[m], cell ^ Mask(m))
  }

  lemma NextMaskedName(names: seq<string>, cell: CellID, name: string)
    requires MaskedNames(names, cell) && |names| < 4 && NamesCell(name, cell ^ Mask(|names|))
    ensures name !in AsSet(names) && MaskedNames(names + [name], cell) && AsSet(names + [name]) == AsSet(names) + {name}
  {
    hide NamesCell, Mask, Suffix, Low32;
    forall m | 0 <= m < |names| ensures names[m] != name {
      MasksDiffer(m, |names|);
      MasksSeparate(cell, Mask(m), Mask(|names|));
      NamesDiffer(names[m], cell ^ Mask(m), name, cell ^ Mask(|names|));
    }
  }

  /** Names with different masks are different. */
  lemma MaskedAreDistinct(names: seq<string>, cell: CellID)
    requires MaskedNames(names, cell)
    ensures Distinct(names)
  {
    hide NamesCell, Mask, Suffix, Low32;
    forall m, k | 0 <= m < k < |names| ensures names[m] != names[k] {
      MasksDiffer(m, k);
      MasksSeparate(cell, Mask(m), Mask(k));
      NamesDiffer(names[m], cell ^ Mask(m), names[k], cell ^ Mask(k));
    }
  }

  function AsSet(names: seq<string>): set<string> {
    set name | name in names
  }

  lemma FirstMaskedName(cell: CellID, name: string)
    requires NamesCell(name, cell)
    ensures MaskedNames([name], cell) && AsSet([name]) == {} + {name}
  {
    XorZero(cell);
  }

  /** The links to an origin that has just been planned. */
  method EmitMirrors(b: Builder, env: Environment, wrapper: Path, originName: string, groupSize: nat, cls: NameClass, cell: CellID)
      returns (mirrors: seq<Path>, error: Option<CoverageError>, ghost names: seq<string>)
    requires b.Valid() && wrapper in DirPaths(b.entries) && wrapper + [originName] in RegularPaths(b.entries)
    requires HardlinksCap in b.enabled && 2 <= groupSize <= 4
    requires NamesCell(originName, cell) && OnlyThrough(b.Claimed(), wrapper, {} + {originName})
    requires forall k :: 0 <= k < |b.groups| ==> wrapper + [originName] !in b.groups[k].paths
    modifies b`used, b`entries, b`groups
    ensures error.None? && b.Valid() && Within(old(b.Claimed()), b.Claimed(), wrapper)
    ensures old(DirPaths(b.entries)) <= DirPaths(b.entries)
    ensures b.groups == old(b.groups) + [Group(wrapper + [originName], [wrapper + [originName]] + mirrors)]
    ensures old(b.entries) <= b.entries
    ensures |names| == groupSize && names[0] == originName && Distinct(names) && MirrorsAt(b.entries, wrapper, names)
  {
    hide Sound, OnlyThrough, Within, ValidName, NamesCell, MaskedNames, AsSet, Mask, Distinct;
    FirstMaskedName(cell, originName);
    WithinNothing(b.Claimed(), wrapper);
    error := None;
    var origin := wrapper + [originName];
    mirrors := [];
    names := [originName];
    MaskedAreDistinct(names, cell);
    for m := 1 to groupSize
      invariant error.None? && b.Valid() && wrapper in DirPaths(b.entries) && origin in RegularPaths(b.entries)
      invariant old(DirPaths(b.entries)) <= DirPaths(b.entries)
      invariant |names| == m && MaskedNames(names, cell) && OnlyThrough(b.Claimed(), wrapper, AsSet(names))
      invariant Within(old(b.Claimed()), b.Claimed(), wrapper)
      invariant |mirrors| == m - 1
      invariant old(b.entries) <= b.entries && names[0] == originName && MirrorsAt(b.entries, wrapper, names)
      invariant b.groups == old(b.groups) + if mirrors == [] then [] else [Group(origin, [origin] + mirrors)]
    {
      var name := DeterministicName(env.seedOf, cls, NAME_DEFAULT_LEN, cell ^ Mask(m));
      NamedIsValid(name, cell ^ Mask(m));
      NextMaskedName(names, cell, name);
      NotClaimed(b.Claimed(), wrapper, AsSet(names), name);
      ghost var claimed := b.Claimed();
      error := b.AppendMirror(wrapper, name, origin, mirrors);
      if error.Some? { return; }
      OnlyThroughGrows(claimed, b.Claimed(), wrapper, AsSet(names), name);
      WithinAdd(claimed, claimed, b.Claimed(), wrapper, name);
      WithinTransitive(old(b.Claimed()), claimed, b.Claimed(), wrapper, wrapper);
      names := names + [name];
      assert [origin] + mirrors + [wrapper + [name]] == [origin] + (mirrors + [wrapper + [name]]);
      mirrors := mirrors + [wrapper + [name]];
    }
    MaskedAreDistinct(names, cell);
  }

  lemma WithinNothing(claimed: set<Path>, dir: Path)
    ensures Within(claimed, claimed, dir)
  {
  }

  /** Origin, mirrors and the group they form, in a fresh wrapper. */
  method EmitHardlinkCell(b: Builder, env: Environment, ghost root: Path, wrapper: Path, groupSize: nat, cls: NameClass, cell: CellID)
      returns (error: Option<CoverageError>)
    requires b.Valid() && b.Settled() && wrapper in DirPaths(b.entries) && NothingIn(b.Claimed(), wrapper)
    requires HardlinksCap in b.enabled && 2 <= groupSize <= 4 && IsCell(root, Hardlinks, wrapper)
    modifies b`used, b`entries, b`groups, b`hardlinks
    ensures error.None? && Kept(b, wrapper)
    ensures GroupShown(ViewOf(b, env, root), groupSize, cls, cell)
  {
    hide Sound, OnlyThrough, Within, Reported, ValidName, NamesCell, FileMetadata, Stamped, IsCell, CellNamed, MirrorsAt, IsPlain, Distinct, GroupShown;
    var originName := NameCell(env, cls, cell);
    NamedIsValid(originName, cell);
    NotClaimed(b.Claimed(), wrapper, {}, originName);
    var origin := wrapper + [originName];
    ghost var before := b.Claimed();
    OriginUngrouped(b, origin);
    var data := PlainData(env.hash, 64, cell);
    PlainIsGated(b.enabled);
    error := b.AppendFile(wrapper, originName, FILE_MODE, data, None, NO_METADATA);
    if error.Some? { return; }
    OnlyThroughGrows(before, b.Claimed(), wrapper, {}, originName);
    WithinAdd(before, before, b.Claimed(), wrapper, originName);
    ghost var mid, earlierGroups := b.Claimed(), b.groups;
    ghost var originEntry := FileEntry(wrapper + [originName], FILE_MODE, data, None, Stamped(b.enabled, NO_METADATA));
    assert originEntry in b.entries;
    var mirrors;
    ghost var names;
    mirrors, error, names := EmitMirrors(b, env, wrapper, originName, groupSize, cls, cell);
    if error.Some? { return; }
    WithinTransitive(before, mid, b.Claimed(), wrapper, wrapper);
    assert b.groups[..|b.groups| - 1] == earlierGroups;
    b.RegisterHardlinkGroup(origin, mirrors);
    GroupIsShown(ViewOf(b, env, root), groupSize, cls, cell, wrapper, names, data);
  }

  lemma GroupIsShown(v: View, size: nat, cls: NameClass, cell: CellID, wrapper: Path, names: seq<string>, data: seq<Byte>)
    requires |names| == size && size >= 1 && Distinct(names) && CellNamed(v.env, names[0], cls, cell) && IsPlain(v.env.hash, 64, cell, data)
    requires FileEntry(wrapper + [names[0]], FILE_MODE, data, None, Stamped(v.enabled, NO_METADATA)) in v.entries
    requires MirrorsAt(v.entries, wrapper, names) && IsCell(v.root, Hardlinks, wrapper)
    ensures GroupShown(v, size, cls, cell)
  {
    hide IsCell, CellNamed, MirrorsAt, IsPlain, Distinct, Stamped;
    assert GroupAt(v, size, cls, cell, wrapper, names);
  }

  lemma NamedIsValid(name: string, cell: CellID)
    requires NamesCell(name, cell)
    ensures ValidName(name)
  {
  }

  /** An unplanned path is in no group. */
  lemma OriginUngrouped(b: Builder, origin: Path)
    requires b.Valid() && origin !in b.Claimed()
    ensures forall k :: 0 <= k < |b.groups| ==> origin !in b.groups[k].paths
  {
    GroupedIsPlanned(b.entries, b.groups);
  }
}
