/**
  coverage_enumerator.go: the loops over test cases and repetitions, one method per sub-tree,
  and `enumerateCoveragePlan` itself.
 */
module CoverageSubTrees {
  import opened Wrappers
  import opened Paths
  import opened FileSystem
  import opened PlanSpec
  import opened ContentPatterns
  import opened CoverageContent
  import opened CoverageNaming
  import opened CoveragePlan
  import opened CoverageCells
  import opened CoverageClasses
  import opened CoverageBuilder
  import opened CoverageEnumerator
  import Pairwise

  /** Test cases over at least two non-empty dimensions. */
  method Cases(sizes: seq<int>) returns (cases: seq<seq<int>>)
    requires |sizes| >= 2 && Pairwise.Positive(sizes)
    ensures Pairwise.Searching(sizes, cases, [])
  {
    cases := Pairwise.CoveragePairwise(sizes);
  }

  lemma MetadataForIsGated(env: Environment, enabled: set<Capability>, cls: MetadataClass, ownerIndex: nat, variant: nat,
                           xattrs: map<string, seq<Byte>>, acl: seq<string>)
    requires acl == DIR_ACL || acl == FILE_ACL
    ensures FileMetadata(enabled, Stamped(enabled, MetadataFor(env, enabled, cls, ownerIndex, variant, xattrs, acl)))
  {
    assert |ACLFor(DEFAULT_ON_DIR)| == 6;
  }

  /** The builder has just opened a sub-tree: nothing is planned below its root yet. */
  ghost predicate AtRoot(b: Builder, root: Path)
    reads b
  {
    b.Valid() && b.Settled() && root in DirPaths(b.entries) && NothingIn(b.Claimed(), root)
  }

  lemma AtRootInTree(b: Builder, root: Path, t: SubTree)
    requires AtRoot(b, root)
    ensures InTree(b, root, t, {})
  {
  }

  /** Between two repetitions: everything before them is in the plan. */
  twostate predicate Between(b: Builder, env: Environment, root: Path, t: SubTree, cases: seq<seq<int>>, multiplier: int, idx: int, rep: int)
    reads b
  {
    Kept(b, root) && ShownUpTo(ViewOf(b, env, root), t, cases, multiplier, idx, rep)
  }

  /** enumerateCoverageDirSubTree */
  method EnumerateDirs(b: Builder, env: Environment, root: Path, multiplier: int) returns (error: Option<CoverageError>)
    requires AtRoot(b, root)
    modifies b
    ensures error.None? && Kept(b, root)
    ensures PairsShown(ViewOf(b, env, root), Dirs, multiplier)
  {
    hide Sound, Cells, Apart, Within, Reported, GatedMetadata, Stamped, MetadataFor, ACLFor, OnlyThrough, LeafShown, ShownUpTo, PairsShown, CaseShown;
    var metaValues := MetadataValues(b.enabled);
    var cases := Cases([MODE_CLASSES, NAME_CLASSES, |metaValues|]);
    AtRootInTree(b, root, Dirs);
    WithinNothing(b.Claimed(), root);
    NothingShown(ViewOf(b, env, root), Dirs, cases, multiplier);
    error := None;
    for idx := 0 to |cases|
      invariant error.None? && InTree(b, root, Dirs, {}) && Between(b, env, root, Dirs, cases, multiplier, idx, 0)
    {
      var tc := cases[idx];
      var rep := 0;
      while rep < multiplier
        invariant 0 <= rep && error.None? && InTree(b, root, Dirs, {}) && Between(b, env, root, Dirs, cases, multiplier, idx, rep)
      {
        var cell := env.cell(Dirs, tc, rep);
        var metadata := MetadataFor(env, b.enabled, metaValues[tc[2]], idx + rep, PAST, env.xattrs(Dirs, 0, cell), DIR_ACL);
        MetadataForIsGated(env, b.enabled, metaValues[tc[2]], idx + rep, PAST, env.xattrs(Dirs, 0, cell), DIR_ACL);
        ghost var claimed, v := b.Claimed(), ViewOf(b, env, root);
        error := EmitLeafCell(b, env, Dirs, root, NameClassAt(tc[1]), cell, DirLeaf(ModeForDir(tc[0]), metadata));
        if error.Some? { return; }
        WithinTransitive(old(b.Claimed()), claimed, b.Claimed(), root, root);
        DirCase(ViewOf(b, env, root), tc, rep, idx + rep);
        OneMoreShown(v, ViewOf(b, env, root), Dirs, cases, multiplier, idx, rep);
        rep := rep + 1;
      }
      CaseFinished(ViewOf(b, env, root), Dirs, cases, multiplier, idx, rep);
    }
    AllCasesShowPairs(ViewOf(b, env, root), Dirs, cases, multiplier);
  }

  lemma DirCase(v: View, tc: seq<int>, rep: nat, owner: nat)
    requires Pairwise.InRange(Dimensions(v.enabled, Dirs), tc)
    requires var cell := v.env.cell(Dirs, tc, rep);
      LeafShown(v, Dirs, NameClassAt(tc[1]), cell, DirLeafFor(v.env, v.enabled, tc, owner, cell))
    ensures CaseShown(v, Dirs, tc, rep)
  {
    hide LeafShown, DirLeafFor;
  }

  /** enumerateCoverageFileSubTree */
  method EnumerateFiles(b: Builder, env: Environment, root: Path, multiplier: int) returns (error: Option<CoverageError>)
    requires AtRoot(b, root)
    modifies b
    ensures error.None? && Kept(b, root)
    ensures PairsShown(ViewOf(b, env, root), Files, multiplier)
  {
    hide Sound, Cells, Apart, Within, Reported, OnlyThrough, ShownUpTo, PairsShown, CaseShown;
    var metaValues := MetadataValues(b.enabled);
    var cases := Cases([MODE_CLASSES, CONTENT_CLASSES, SIZE_CLASSES, NAME_CLASSES, |metaValues|]);
    AtRootInTree(b, root, Files);
    WithinNothing(b.Claimed(), root);
    NothingShown(ViewOf(b, env, root), Files, cases, multiplier);
    error := None;
    for idx := 0 to |cases|
      invariant error.None? && InTree(b, root, Files, {}) && Between(b, env, root, Files, cases, multiplier, idx, 0)
    {
      var tc := cases[idx];
      var rep := 0;
      while rep < multiplier
        invariant 0 <= rep && error.None? && InTree(b, root, Files, {}) && Between(b, env, root, Files, cases, multiplier, idx, rep)
      {
        ghost var claimed, v := b.Claimed(), ViewOf(b, env, root);
        error := EmitFileCell(b, env, root, tc, metaValues[tc[4]], idx + rep, rep);
        if error.Some? { return; }
        WithinTransitive(old(b.Claimed()), claimed, b.Claimed(), root, root);
        OneMoreShown(v, ViewOf(b, env, root), Files, cases, multiplier, idx, rep);
        rep := rep + 1;
      }
      CaseFinished(ViewOf(b, env, root), Files, cases, multiplier, idx, rep);
    }
    AllCasesShowPairs(ViewOf(b, env, root), Files, cases, multiplier);
  }

  method EmitFileCell(b: Builder, env: Environment, root: Path, tc: seq<int>, metaClass: MetadataClass, ownerIndex: nat, rep: nat)
      returns (error: Option<CoverageError>)
    requires InTree(b, root, Files, {}) && Pairwise.InRange(Dimensions(b.enabled, Files), tc)
    requires metaClass == MetadataValues(b.enabled)[tc[4]]
    modifies b
    ensures error.None? && InTree(b, root, Files, {}) && Kept(b, root)
    ensures CaseShown(ViewOf(b, env, root), Files, tc, rep)
  {
    hide Sound, Cells, Apart, Within, Reported, GatedMetadata, Stamped, MetadataFor, ACLFor, GoodContent, LeafShown, IsPlain, CaseShown;
    var cell := env.cell(Files, tc, rep);
    var sizeClass := SizeClassAt(tc[2]);
    var content := ContentFor(env.hash, ContentClassAt(tc[1]), sizeClass, cell);
    var data: seq<Byte> := [];
    if content.None? {
      data := PlainData(env.hash, SizeBytes(sizeClass), cell);
    }
    var variant := TimestampForCell(cell);
    var metadata := MetadataFor(env, b.enabled, metaClass, ownerIndex, variant, env.xattrs(Files, 0, cell), FILE_ACL);
    MetadataForIsGated(env, b.enabled, metaClass, ownerIndex, variant, env.xattrs(Files, 0, cell), FILE_ACL);
    error := EmitLeafCell(b, env, Files, root, NameClassAt(tc[3]), cell, FileLeaf(ModeForFile(tc[0]), data, content, metadata));
    FileCase(ViewOf(b, env, root), tc, rep, ownerIndex, data, content);
  }

  lemma FileCase(v: View, tc: seq<int>, rep: nat, owner: nat, data: seq<Byte>, content: Option<Content>)
    requires Pairwise.InRange(Dimensions(v.enabled, Files), tc)
    requires var cell := v.env.cell(Files, tc, rep);
      PayloadOf(v.env.hash, ContentClassAt(tc[1]), SizeClassAt(tc[2]), cell, data, content)
      && LeafShown(v, Files, NameClassAt(tc[3]), cell, FileLeafFor(v.env, v.enabled, tc, owner, cell, data, content))
    ensures CaseShown(v, Files, tc, rep)
  {
    hide LeafShown, FileLeafFor, PayloadOf;
  }

  // ---------------------------------------------------------------- symlinks

  lemma AnchorsApart()
    ensures Apart(Symlinks, {ANCHOR_FILE, ANCHOR_SYMLINK}) && ANCHOR_FILE != ANCHOR_SYMLINK
    ensures ValidName(ANCHOR_FILE) && ValidName(ANCHOR_SYMLINK)
  {
    forall k: nat ensures CellName(Symlinks, k) !in {ANCHOR_FILE, ANCHOR_SYMLINK} {
      CellNameValid(Symlinks, k);
      assert ANCHOR_FILE[0] == 'a' && ANCHOR_SYMLINK[0] == 'a';
    }
    assert |ANCHOR_FILE| != |ANCHOR_SYMLINK|;
  }

  lemma OnlyFixed(b: Builder, root: Path, t: SubTree, fixed: set<string>)
    requires b.Valid() && b.Settled() && root in DirPaths(b.entries) && OnlyThrough(b.Claimed(), root, fixed) && Apart(t, fixed)
    ensures InTree(b, root, t, fixed)
  {
  }

  /** The anchor file and anchor link that other links point to. */
  method PlanAnchors(b: Builder, ghost env: Environment, root: Path) returns (error: Option<CoverageError>)
    requires AtRoot(b, root) && SymlinksCap in b.enabled
    modifies b
    ensures error.None? && InTree(b, root, Symlinks, {ANCHOR_FILE, ANCHOR_SYMLINK}) && Kept(b, root)
    ensures AnchorsShown(View(env, b.enabled, root, b.entries, b.dangling))
  {
    hide Sound, Cells, Apart, Within, Reported, GatedMetadata, Stamped, OnlyThrough;
    AnchorsApart();
    NotClaimed(b.Claimed(), root, {}, ANCHOR_FILE);
    PlainIsGated(b.enabled);
    ghost var before := b.Claimed();
    error := b.AppendFile(root, ANCHOR_FILE, FILE_MODE, ANCHOR_DATA, None, NO_METADATA);
    if error.Some? { return; }
    OnlyThroughGrows(before, b.Claimed(), root, {}, ANCHOR_FILE);
    error := EmitLink(b, root, {} + {ANCHOR_FILE}, ANCHOR_SYMLINK, ANCHOR_FILE);
    if error.Some? { return; }
    assert {} + {ANCHOR_FILE} + {ANCHOR_SYMLINK} == {ANCHOR_FILE, ANCHOR_SYMLINK};
    OnlyFixed(b, root, Symlinks, {ANCHOR_FILE, ANCHOR_SYMLINK});
    WithinTwo(before, b.Claimed(), root, ANCHOR_FILE, ANCHOR_SYMLINK);
  }

  /** enumerateCoverageSymlinkSubTree */
  method EnumerateSymlinks(b: Builder, env: Environment, root: Path, multiplier: int) returns (error: Option<CoverageError>)
    requires AtRoot(b, root)
    modifies b
    ensures error.None? && Kept(b, root)
    ensures PairsShown(ViewOf(b, env, root), Symlinks, multiplier)
  {
    hide Sound, Cells, Apart, Within, Reported, OnlyThrough, ShownUpTo, PairsShown, CaseShown, AnchorsShown;
    WithinNothing(b.Claimed(), root);
    if SymlinksCap !in b.enabled {
      NoDimensionsNoPairs(ViewOf(b, env, root), Symlinks, multiplier);
      return None;
    }
    error := PlanAnchors(b, env, root);
    if error.Some? { return; }
    ghost var fixed := {ANCHOR_FILE, ANCHOR_SYMLINK};
    var cases := Cases([STRATEGIES, NAME_CLASSES]);
    NothingShown(ViewOf(b, env, root), Symlinks, cases, multiplier);
    for idx := 0 to |cases|
      invariant error.None? && InTree(b, root, Symlinks, fixed) && Between(b, env, root, Symlinks, cases, multiplier, idx, 0)
      invariant AnchorsShown(ViewOf(b, env, root))
    {
      var tc := cases[idx];
      var rep := 0;
      while rep < multiplier
        invariant 0 <= rep && error.None? && InTree(b, root, Symlinks, fixed)
        invariant Between(b, env, root, Symlinks, cases, multiplier, idx, rep) && AnchorsShown(ViewOf(b, env, root))
      {
        ghost var claimed, v := b.Claimed(), ViewOf(b, env, root);
        error := EmitLinkCell(b, env, root, fixed, Symlinks, tc, rep);
        if error.Some? { return; }
        WithinTransitive(old(b.Claimed()), claimed, b.Claimed(), root, root);
        AnchorsStay(v, ViewOf(b, env, root));
        SymlinkCase(ViewOf(b, env, root), tc, rep);
        OneMoreShown(v, ViewOf(b, env, root), Symlinks, cases, multiplier, idx, rep);
        rep := rep + 1;
      }
      CaseFinished(ViewOf(b, env, root), Symlinks, cases, multiplier, idx, rep);
    }
    AllCasesShowPairs(ViewOf(b, env, root), Symlinks, cases, multiplier);
  }

  lemma AnchorsStay(v: View, w: View)
    requires Extended(v, w) && AnchorsShown(v)
    ensures AnchorsShown(w)
  {
  }

  lemma SymlinkCase(v: View, tc: seq<int>, rep: nat)
    requires Pairwise.InRange(Dimensions(v.enabled, Symlinks), tc) && SymlinksCap in v.enabled && AnchorsShown(v)
    requires LinkShown(v, StrategyAt(tc[0]), NameClassAt(tc[1]), v.env.cell(Symlinks, tc, rep))
    ensures CaseShown(v, Symlinks, tc, rep)
  {
    hide AnchorsShown, LinkShown;
  }

  lemma HardlinkCase(v: View, tc: seq<int>, rep: nat)
    requires Pairwise.InRange(Dimensions(v.enabled, Hardlinks), tc) && HardlinksCap in v.enabled
    requires GroupShown(v, GROUP_SIZES[tc[0]], NameClassAt(tc[1]), v.env.cell(Hardlinks, tc, rep))
    ensures CaseShown(v, Hardlinks, tc, rep)
  {
    hide GroupShown;
  }

  /** A wrapper and what goes into it: symbolic links, or a hard link group. */
  method EmitLinkCell(b: Builder, env: Environment, root: Path, ghost fixed: set<string>, t: SubTree, tc: seq<int>, rep: nat)
      returns (error: Option<CoverageError>)
    requires InTree(b, root, t, fixed) && |tc| == 2 && tc[0] >= 0 && tc[1] >= 0
    requires t.Symlinks? || (t.Hardlinks? && tc[0] < |GROUP_SIZES|)
    requires (t.Symlinks? ==> SymlinksCap in b.enabled) && (t.Hardlinks? ==> HardlinksCap in b.enabled)
    modifies b
    ensures error.None? && InTree(b, root, t, fixed) && Kept(b, root)
    ensures t.Symlinks? ==> LinkShown(ViewOf(b, env, root), StrategyAt(tc[0]), NameClassAt(tc[1]), env.cell(t, tc, rep))
    ensures t.Hardlinks? ==> GroupShown(ViewOf(b, env, root), GROUP_SIZES[tc[0]], NameClassAt(tc[1]), env.cell(t, tc, rep))
  {
    hide Sound, Cells, Apart, Within, Reported, OnlyThrough, CellName, LinkShown, GroupShown, IsCell;
    ghost var before, next := b.Claimed(), b.nextCellIndex;
    var cell := env.cell(t, tc, rep);
    var wrapper;
    wrapper, error := OpenCell(b, t, root, fixed);
    if error.Some? { return; }
    ghost var mid := b.Claimed();
    WithinOne(before, wrapper);
    if t.Symlinks? {
      error := EmitSymlinkCell(b, env, root, wrapper, root + [ANCHOR_FILE], root + [ANCHOR_SYMLINK],
                               StrategyAt(tc[0]), NameClassAt(tc[1]), cell);
    } else {
      error := EmitHardlinkCell(b, env, root, wrapper, GROUP_SIZES[tc[0]], NameClassAt(tc[1]), cell);
    }
    WithinTransitive(before, mid, b.Claimed(), wrapper, wrapper);
    CellDone(b, before, root, t, next, fixed);
  }

  lemma WithinOne(claimed: set<Path>, p: Path)
    ensures Within(claimed, claimed + {p}, p)
  {
  }

  /** enumerateCoverageHardlinkSubTree */
  method EnumerateHardlinks(b: Builder, env: Environment, root: Path, multiplier: int) returns (error: Option<CoverageError>)
    requires AtRoot(b, root)
    modifies b
    ensures error.None? && Kept(b, root)
    ensures PairsShown(ViewOf(b, env, root), Hardlinks, multiplier)
  {
    hide Sound, Cells, Apart, Within, Reported, OnlyThrough, ShownUpTo, PairsShown, CaseShown;
    WithinNothing(b.Claimed(), root);
    error := None;
    if HardlinksCap !in b.enabled {
      NoDimensionsNoPairs(ViewOf(b, env, root), Hardlinks, multiplier);
      return;
    }
    AtRootInTree(b, root, Hardlinks);
    var cases := Cases([|GROUP_SIZES|, NAME_CLASSES]);
    NothingShown(ViewOf(b, env, root), Hardlinks, cases, multiplier);
    for idx := 0 to |cases|
      invariant error.None? && InTree(b, root, Hardlinks, {}) && Between(b, env, root, Hardlinks, cases, multiplier, idx, 0)
    {
      var tc := cases[idx];
      var rep := 0;
      while rep < multiplier
        invariant 0 <= rep && error.None? && InTree(b, root, Hardlinks, {})
        invariant Between(b, env, root, Hardlinks, cases, multiplier, idx, rep)
      {
        ghost var claimed, v := b.Claimed(), ViewOf(b, env, root);
        error := EmitLinkCell(b, env, root, {}, Hardlinks, tc, rep);
        if error.Some? { return; }
        WithinTransitive(old(b.Claimed()), claimed, b.Claimed(), root, root);
        HardlinkCase(ViewOf(b, env, root), tc, rep);
        OneMoreShown(v, ViewOf(b, env, root), Hardlinks, cases, multiplier, idx, rep);
        rep := rep + 1;
      }
      CaseFinished(ViewOf(b, env, root), Hardlinks, cases, multiplier, idx, rep);
    }
    AllCasesShowPairs(ViewOf(b, env, root), Hardlinks, cases, multiplier);
  }

  // ---------------------------------------------------------------- attribute variants

  lemma VariantListsDiffer(variant: nat)
    ensures ACLFor(variant) in COVERAGE_ACLS
    ensures variant != DEFAULT_ON_DIR ==> ACLFor(variant) != ACLFor(DEFAULT_ON_DIR)
  {
    assert ACLFor(DEFAULT_ON_DIR)[0][5] == 'x';
    assert variant != DEFAULT_ON_DIR ==> ACLFor(variant)[0][5] == '-';
  }

  lemma VariantAllowed(env: Environment, enabled: set<Capability>, t: SubTree, variant: nat, data: seq<Byte>, cell: CellID)
    requires (t.XAttrs? || t.ACLs? || t.Timestamps?) && Variants(enabled, t) > 0
    ensures LeafAllowed(enabled, VariantLeaf(env, t, variant, data, cell))
  {
    VariantListsDiffer(variant);
  }

  /** enumerateCoverageXAttrSubTree, enumerateCoverageACLSubTree and enumerateCoverageTimestampSubTree */
  method EnumerateVariants(b: Builder, env: Environment, t: SubTree, root: Path, multiplier: int) returns (error: Option<CoverageError>)
    requires AtRoot(b, root) && (t.XAttrs? || t.ACLs? || t.Timestamps?)
    modifies b
    ensures error.None? && Kept(b, root)
    ensures PairsShown(ViewOf(b, env, root), t, multiplier)
  {
    hide Sound, Cells, Apart, Within, Reported, OnlyThrough, LeafAllowed, VariantLeaf, LeafShown, ShownUpTo, PairsShown, CaseShown, IsPlain;
    WithinNothing(b.Claimed(), root);
    error := None;
    var variants := Variants(b.enabled, t);
    if variants == 0 {
      NoDimensionsNoPairs(ViewOf(b, env, root), t, multiplier);
      return;
    }
    AtRootInTree(b, root, t);
    var cases := Cases([variants, NAME_CLASSES]);
    NothingShown(ViewOf(b, env, root), t, cases, multiplier);
    for idx := 0 to |cases|
      invariant error.None? && InTree(b, root, t, {}) && Between(b, env, root, t, cases, multiplier, idx, 0)
    {
      var tc := cases[idx];
      var rep := 0;
      while rep < multiplier
        invariant 0 <= rep && error.None? && InTree(b, root, t, {}) && Between(b, env, root, t, cases, multiplier, idx, rep)
      {
        var cell := env.cell(t, tc, rep);
        var data := PlainData(env.hash, 16, cell);
        VariantAllowed(env, b.enabled, t, tc[0], data, cell);
        ghost var claimed, v := b.Claimed(), ViewOf(b, env, root);
        error := EmitLeafCell(b, env, t, root, NameClassAt(tc[1]), cell, VariantLeaf(env, t, tc[0], data, cell));
        if error.Some? { return; }
        WithinTransitive(old(b.Claimed()), claimed, b.Claimed(), root, root);
        VariantCase(ViewOf(b, env, root), t, tc, rep, data);
        OneMoreShown(v, ViewOf(b, env, root), t, cases, multiplier, idx, rep);
        rep := rep + 1;
      }
      CaseFinished(ViewOf(b, env, root), t, cases, multiplier, idx, rep);
    }
    AllCasesShowPairs(ViewOf(b, env, root), t, cases, multiplier);
  }

  lemma VariantCase(v: View, t: SubTree, tc: seq<int>, rep: nat, data: seq<Byte>)
    requires (t.XAttrs? || t.ACLs? || t.Timestamps?) && Variants(v.enabled, t) > 0
    requires Pairwise.InRange(Dimensions(v.enabled, t), tc) && IsPlain(v.env.hash, 16, v.env.cell(t, tc, rep), data)
    requires var cell := v.env.cell(t, tc, rep);
      LeafShown(v, t, NameClassAt(tc[1]), cell, VariantLeaf(v.env, t, tc[0], data, cell))
    ensures CaseShown(v, t, tc, rep)
  {
    hide LeafShown, VariantLeaf, IsPlain;
  }

  // ---------------------------------------------------------------- special files

  /** Only numbered special files below the root so far. */
  ghost predicate Numbered(claimed: set<Path>, root: Path, next: nat) {
    forall q :: q in claimed && root < q ==> NumberedName(next, q[|root|])
  }

  predicate NumberedName(next: nat, name: string) {
    exists k, kind :: 0 <= k < next && name == SpecialName(k, kind)
  }

  lemma UnclaimedSpecial(claimed: set<Path>, root: Path, next: nat, kind: SpecialType)
    requires Numbered(claimed, root, next)
    ensures root + [SpecialName(next, kind)] !in claimed
    ensures Numbered(claimed + {root + [SpecialName(next, kind)]}, root, next + 1)
  {
    var name := SpecialName(next, kind);
    var p := root + [name];
    ChildOf(root, name);
    if NumberedName(next, name) {
      var k, other :| 0 <= k < next && name == SpecialName(k, other);
      SpecialNamesDiffer(next, kind, k, other);
    }
    hide SpecialName;
    forall q | q in claimed + {p} && root < q ensures NumberedName(next + 1, q[|root|]) {
      if q in claimed {
        var k, other :| 0 <= k < next && q[|root|] == SpecialName(k, other);
      } else {
        assert q[|root|] == name;
      }
    }
  }

  ghost predicate InSpecials(b: Builder, root: Path, next: nat)
    reads b
  {
    b.Valid() && b.Settled() && root in DirPaths(b.entries) && Numbered(b.Claimed(), root, next)
  }

  method EmitSpecial(b: Builder, root: Path, index: nat, mode: nat, kind: SpecialType) returns (error: Option<CoverageError>)
    requires InSpecials(b, root, index) && SpecialAllowed(b.enabled, kind)
    modifies b`used, b`entries
    ensures error.None? && InSpecials(b, root, index + 1) && Kept(b, root)
    ensures b.entries == old(b.entries) + [SpecialFor(b.enabled, root + [SpecialName(index, kind)], mode, kind)]
  {
    hide Sound, Within, Reported, Numbered, SpecialName, SpecialAllowed, SpecialFor;
    var name := SpecialName(index, kind);
    SpecialNameValid(index, kind);
    UnclaimedSpecial(b.Claimed(), root, index, kind);
    ghost var claimed := b.Claimed();
    error := b.AppendSpecial(root, name, mode, kind);
    WithinAdd(claimed, claimed, b.Claimed(), root, name);
  }

  lemma NoneNumbered(b: Builder, root: Path)
    requires AtRoot(b, root)
    ensures InSpecials(b, root, 0)
  {
  }

  /** enumerateCoverageSpecialSubTree: flat, numbered names. */
  method EnumerateSpecials(b: Builder, env: Environment, root: Path, multiplier: int) returns (error: Option<CoverageError>)
    requires AtRoot(b, root)
    modifies b
    ensures error.None? && Kept(b, root)
    ensures PairsShown(ViewOf(b, env, root), Specials, multiplier)
  {
    hide Sound, Within, Reported, OnlyThrough, Numbered, SpecialName, SpecialAllowed, Cells, SpecialFor, ShownUpTo, PairsShown, CaseShown;
    WithinNothing(b.Claimed(), root);
    error := None;
    var types := SpecialTypes(b.enabled);
    if |types| == 0 {
      NoDimensionsNoPairs(ViewOf(b, env, root), Specials, multiplier);
      return;
    }
    var cases := Cases([|types|, 2]);
    var specialIndex := 0;
    NoneNumbered(b, root);
    NothingShown(ViewOf(b, env, root), Specials, cases, multiplier);
    for idx := 0 to |cases|
      invariant error.None? && InSpecials(b, root, specialIndex) && Between(b, env, root, Specials, cases, multiplier, idx, 0)
    {
      var tc := cases[idx];
      var rep := 0;
      while rep < multiplier
        invariant 0 <= rep && error.None? && InSpecials(b, root, specialIndex)
        invariant Between(b, env, root, Specials, cases, multiplier, idx, rep)
      {
        ghost var claimed, v := b.Claimed(), ViewOf(b, env, root);
        error := EmitSpecial(b, root, specialIndex, ModeForFile(tc[1]), types[tc[0]]);
        if error.Some? { return; }
        WithinTransitive(old(b.Claimed()), claimed, b.Claimed(), root, root);
        SpecialCase(ViewOf(b, env, root), tc, rep, specialIndex);
        OneMoreShown(v, ViewOf(b, env, root), Specials, cases, multiplier, idx, rep);
        specialIndex := specialIndex + 1;
        rep := rep + 1;
      }
      CaseFinished(ViewOf(b, env, root), Specials, cases, multiplier, idx, rep);
    }
    AllCasesShowPairs(ViewOf(b, env, root), Specials, cases, multiplier);
  }

  lemma SpecialCase(v: View, tc: seq<int>, rep: nat, index: nat)
    requires SpecialTypes(v.enabled) != [] && Pairwise.InRange(Dimensions(v.enabled, Specials), tc)
    requires v.entries != [] && var kind := SpecialTypes(v.enabled)[tc[0]];
      v.entries[|v.entries| - 1] == SpecialFor(v.enabled, v.root + [SpecialName(index, kind)], ModeForFile(tc[1]), kind)
    ensures CaseShown(v, Specials, tc, rep)
  {
    hide SpecialName, SpecialFor, ModeForFile;
    var kind := SpecialTypes(v.enabled)[tc[0]];
    assert SpecialFor(v.enabled, v.root + [SpecialName(index, kind)], ModeForFile(tc[1]), kind) in v.entries;
    assert SpecialShown(v, kind, ModeForFile(tc[1]));
  }

  // ---------------------------------------------------------------- the whole plan

  const SUB_TREES := [Dirs, Files, Symlinks, Hardlinks, Specials, XAttrs, ACLs, Timestamps]

  method EnumerateSubTree(b: Builder, env: Environment, t: SubTree, root: Path, multiplier: int) returns (error: Option<CoverageError>)
    requires AtRoot(b, root)
    modifies b
    ensures error.None? && Kept(b, root)
    ensures PairsShown(ViewOf(b, env, root), t, multiplier)
  {
    hide Sound, Within, Reported, OnlyThrough, PairsShown;
    match t {
      case Dirs => error := EnumerateDirs(b, env, root, multiplier);
      case Files => error := EnumerateFiles(b, env, root, multiplier);
      case Symlinks => error := EnumerateSymlinks(b, env, root, multiplier);
      case Hardlinks => error := EnumerateHardlinks(b, env, root, multiplier);
      case Specials => error := EnumerateSpecials(b, env, root, multiplier);
      case XAttrs => error := EnumerateVariants(b, env, t, root, multiplier);
      case ACLs => error := EnumerateVariants(b, env, t, root, multiplier);
      case Timestamps => error := EnumerateVariants(b, env, t, root, multiplier);
    }
  }

  function RootNames(done: seq<SubTree>): set<string> {
    set t | t in done :: RootName(t)
  }

  lemma NewRootName(done: seq<SubTree>, t: SubTree)
    requires t !in done
    ensures RootName(t) !in RootNames(done)
    ensures RootNames(done + [t]) == RootNames(done) + {RootName(t)}
  {
    forall u | u in done ensures RootName(u) != RootName(t) {
      if RootName(u) == RootName(t) { RootNamesDiffer(u, t); }
    }
    assert forall u :: u in done + [t] <==> u in done || u == t;
  }

  /** A sub-tree's work shows below the base only through its root. */
  lemma RootDone(before: set<Path>, after: set<Path>, base: Path, names: set<string>, name: string)
    requires OnlyThrough(before, base, names) && Within(before, after, base + [name])
    ensures OnlyThrough(after, base, names + {name})
  {
    Through(base, name);
  }

  lemma RootIsFresh(claimed: set<Path>, base: Path, names: set<string>, name: string)
    requires OnlyThrough(claimed, base, names) && name !in names
    ensures base + [name] !in claimed && NothingIn(claimed + {base + [name]}, base + [name])
  {
    UnclaimedChild(claimed, base, names, name);
  }

  /** Open a sub-tree's root directory and fill it. */
  method AddSubTree(b: Builder, env: Environment, t: SubTree, multiplier: int, ghost names: set<string>)
      returns (error: Option<CoverageError>)
    requires b.Valid() && b.Settled() && b.base in DirPaths(b.entries)
    requires OnlyThrough(b.Claimed(), b.base, names) && RootName(t) !in names
    modifies b
    ensures error.None? && b.Valid() && b.Settled() && b.base in DirPaths(b.entries)
    ensures OnlyThrough(b.Claimed(), b.base, names + {RootName(t)})
    ensures old(b.entries) <= b.entries && old(b.dangling) <= b.dangling
    ensures PairsShown(ViewOf(b, env, b.base + [RootName(t)]), t, multiplier)
  {
    hide Sound, Within, Reported, OnlyThrough, RootName, PairsShown;
    var root := b.base + [RootName(t)];
    ghost var before := b.Claimed();
    RootNameValid(t);
    RootIsFresh(before, b.base, names, RootName(t));
    PlainIsGated(b.enabled);
    error := b.AppendDir(b.base, RootName(t), DIR_MODE, NO_METADATA);
    if error.Some? { return; }
    WithinOne(before, root);
    ghost var mid := b.Claimed();
    error := EnumerateSubTree(b, env, t, root, multiplier);
    if error.Some? { return; }
    WithinTransitive(before, mid, b.Claimed(), root, root);
    RootDone(before, b.Claimed(), b.base, names, RootName(t));
  }

  /**
    enumerateCoveragePlan. For every base path, capability set, multiplier and hash it succeeds:
    no path collides. The plan has parents before children and link sources before links, uses
    only enabled capabilities, never plans the target of a dangling link, and its reported groups
    are its hard link classes. And it covers: every pair of class values of every sub-tree the
    capabilities allow is realised by a planned cell, once for each repetition. `Covered` says so
    on the entries themselves.
   */
  method EnumerateCoveragePlan(env: Environment, base: Path, enabled: set<Capability>, multiplier: int)
      returns (entries: seq<Entry>, groups: seq<Group>, error: Option<CoverageError>, ghost dangling: set<Path>)
    requires Canonical(base)
    ensures error.None?
    ensures WellFormedPlan(base, entries) && DescribesClasses(entries, groups)
    ensures dangling !! PathsOf(entries)
    ensures AllAllowed(enabled, entries)
    ensures forall t :: PairsShown(View(env, enabled, base + [RootName(t)], entries, dangling), t, multiplier)
    ensures forall t, rep :: 0 <= rep < multiplier ==> Covered(View(env, enabled, base + [RootName(t)], entries, dangling), t, rep)
  {
    hide Sound, OnlyThrough, Reported, RootNames, RootName, WellFormedPlan, DescribesClasses, AllAllowed, Materialized, PairsShown, Covered;
    entries, groups, dangling := [], [], {};
    var b := new Builder(base, enabled);
    error := b.AppendBase(DIR_MODE);
    NothingBelowBase(base);
    for k := 0 to |SUB_TREES|
      invariant error.None? && b.Valid() && b.Settled() && base in DirPaths(b.entries)
      invariant OnlyThrough(b.Claimed(), base, RootNames(SUB_TREES[..k]))
      invariant TreesShown(env, enabled, base, b.entries, b.dangling, SUB_TREES[..k], multiplier)
    {
      assert SUB_TREES[k] !in SUB_TREES[..k];
      NewRootName(SUB_TREES[..k], SUB_TREES[k]);
      assert SUB_TREES[..k] + [SUB_TREES[k]] == SUB_TREES[..k + 1];
      ghost var entriesBefore, danglingBefore := b.entries, b.dangling;
      error := AddSubTree(b, env, SUB_TREES[k], multiplier, RootNames(SUB_TREES[..k]));
      if error.Some? { return; }
      OneMoreTree(env, enabled, base, entriesBefore, danglingBefore, b.entries, b.dangling, SUB_TREES[..k], SUB_TREES[k], multiplier);
    }
    entries, groups := b.BuildRunPlan();
    dangling := b.dangling;
    SoundIsFinished(base, enabled, entries, b.used, dangling, b.groups);
    forall t ensures PairsShown(View(env, enabled, base + [RootName(t)], entries, dangling), t, multiplier) {
      EverySubTree(t);
    }
    forall t, rep | 0 <= rep < multiplier ensures Covered(View(env, enabled, base + [RootName(t)], entries, dangling), t, rep) {
      PairsCover(View(env, enabled, base + [RootName(t)], entries, dangling), t, multiplier, rep);
    }
  }

  /** The sub-trees done so far are complete. */
  ghost predicate TreesShown(env: Environment, enabled: set<Capability>, base: Path, entries: seq<Entry>, dangling: set<Path>,
                             done: seq<SubTree>, multiplier: int)
  {
    forall t :: t in done ==> PairsShown(View(env, enabled, base + [RootName(t)], entries, dangling), t, multiplier)
  }

  lemma OneMoreTree(env: Environment, enabled: set<Capability>, base: Path, before: seq<Entry>, danglingBefore: set<Path>,
                    after: seq<Entry>, danglingAfter: set<Path>, done: seq<SubTree>, t: SubTree, multiplier: int)
    requires TreesShown(env, enabled, base, before, danglingBefore, done, multiplier)
    requires before <= after && danglingBefore <= danglingAfter
    requires PairsShown(View(env, enabled, base + [RootName(t)], after, danglingAfter), t, multiplier)
    ensures TreesShown(env, enabled, base, after, danglingAfter, done + [t], multiplier)
  {
    hide PairsShown, RootName;
    forall u | u in done + [t] ensures PairsShown(View(env, enabled, base + [RootName(u)], after, danglingAfter), u, multiplier) {
      if u != t {
        assert u in done;
        var root := base + [RootName(u)];
        PairsStay(View(env, enabled, root, before, danglingBefore), View(env, enabled, root, after, danglingAfter), u, multiplier);
      }
    }
  }

  lemma EverySubTree(t: SubTree)
    ensures t in SUB_TREES[..|SUB_TREES|]
  {
    assert SUB_TREES[..|SUB_TREES|] == SUB_TREES;
    assert SUB_TREES[0] == Dirs && SUB_TREES[1] == Files && SUB_TREES[2] == Symlinks && SUB_TREES[3] == Hardlinks;
    assert SUB_TREES[4] == Specials && SUB_TREES[5] == XAttrs && SUB_TREES[6] == ACLs && SUB_TREES[7] == Timestamps;
  }

  lemma SoundIsFinished(base: Path, enabled: set<Capability>, entries: seq<Entry>, used: set<Path>, dangling: set<Path>, groups: seq<Group>)
    requires Sound(base, enabled, entries, used, dangling, groups)
    ensures WellFormedPlan(base, entries) && DescribesClasses(entries, Materialized(groups))
    ensures dangling !! PathsOf(entries) && AllAllowed(enabled, entries)
  {
    hide DescribesClasses, Materialized;
    MaterializedDescribes(base, entries, groups);
  }

  lemma NothingBelowBase(base: Path)
    ensures OnlyThrough({base}, base, RootNames(SUB_TREES[..0]))
  {
  }
}
