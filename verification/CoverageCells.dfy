/**
  coverage_enumerator.go: what a coverage plan has to show. One cell realises one test case and
  repetition; the plan is complete when every pair of class values is realised by some cell.
 */
module CoverageCells {
  import opened Wrappers
  import opened Sorting
  import opened Paths
  import opened FileSystem
  import opened PlanSpec
  import opened ContentPatterns
  import opened CoverageContent
  import opened CoverageNaming
  import opened CoveragePlan
  import Pairwise

  // ---------------------------------------------------------------- dimensions

  /** The enabled special types, in declaration order. */
  function SpecialTypes(enabled: set<Capability>): (types: seq<SpecialType>)
    ensures forall kind :: kind in types <==> SpecialAllowed(enabled, kind)
  {
    (if FIFOCap in enabled then [FIFO] else [])
    + (if SocketCap in enabled then [Socket] else [])
    + (if CharDeviceCap in enabled then [CharDevice] else [])
    + (if BlockDeviceCap in enabled then [BlockDevice] else [])
  }

  /** The attribute sub-trees: whether they are enabled, and how many variants they have. */
  function Variants(enabled: set<Capability>, t: SubTree): nat
    requires t.XAttrs? || t.ACLs? || t.Timestamps?
  {
    match t
    case XAttrs =>
      if XAttrUserCap !in enabled then 0
      else 4 + (if XAttrTrustedCap in enabled then 1 else 0) + (if XAttrSecurityCap in enabled then 1 else 0)
    case ACLs => if ACLCap in enabled then ACL_VARIANTS else 0
    case Timestamps => if TimestampsCap in enabled then TIMESTAMP_VARIANTS else 0
  }

  /** The sizes each sub-tree's test cases range over; none when the sub-tree stays empty. */
  function Dimensions(enabled: set<Capability>, t: SubTree): (sizes: seq<int>)
    ensures Pairwise.Positive(sizes) && |sizes| != 1
  {
    match t
    case Dirs => [MODE_CLASSES, NAME_CLASSES, |MetadataValues(enabled)|]
    case Files => [MODE_CLASSES, CONTENT_CLASSES, SIZE_CLASSES, NAME_CLASSES, |MetadataValues(enabled)|]
    case Symlinks => if SymlinksCap in enabled then [STRATEGIES, NAME_CLASSES] else []
    case Hardlinks => if HardlinksCap in enabled then [|GROUP_SIZES|, NAME_CLASSES] else []
    case Specials => if SpecialTypes(enabled) != [] then [|SpecialTypes(enabled)|, 2] else []
    case _ => if Variants(enabled, t) > 0 then [Variants(enabled, t), NAME_CLASSES] else []
  }

  // ---------------------------------------------------------------- leaves

  datatype Leaf =
    | DirLeaf(mode: nat, metadata: Metadata)
    | FileLeaf(mode: nat, data: seq<Byte>, content: Option<Content>, metadata: Metadata)

  function LeafEntry(enabled: set<Capability>, p: Path, leaf: Leaf): Entry {
    match leaf
    case DirLeaf(mode, metadata) => DirEntry(p, mode, Stamped(enabled, metadata))
    case FileLeaf(mode, data, content, metadata) => FileEntry(p, mode, data, content, Stamped(enabled, metadata))
  }

  function DirLeafFor(env: Environment, enabled: set<Capability>, tc: seq<int>, ownerIndex: nat, cell: CellID): Leaf
    requires Pairwise.InRange(Dimensions(enabled, Dirs), tc)
  {
    DirLeaf(ModeForDir(tc[0]),
      MetadataFor(env, enabled, MetadataValues(enabled)[tc[2]], ownerIndex, PAST, env.xattrs(Dirs, 0, cell), DIR_ACL))
  }

  /** coverageTimestampForCell */
  function TimestampForCell(cell: CellID): nat {
    VariantIndex(cell % 5)
  }

  function VariantIndex(r: CellID): nat {
    if r == 0 then 0 else if r == 1 then 1 else if r == 2 then 2 else if r == 3 then 3 else 4
  }

  function FileLeafFor(env: Environment, enabled: set<Capability>, tc: seq<int>, ownerIndex: nat, cell: CellID,
                       data: seq<Byte>, content: Option<Content>): Leaf
    requires Pairwise.InRange(Dimensions(enabled, Files), tc)
  {
    FileLeaf(ModeForFile(tc[0]), data, content,
      MetadataFor(env, enabled, MetadataValues(enabled)[tc[4]], ownerIndex, TimestampForCell(cell), env.xattrs(Files, 0, cell), FILE_ACL))
  }

  /** Plain data of the size class, or a content of the class's pattern with that logical size. */
  predicate PayloadOf(hash: Hash, c: ContentClass, sizeClass: SizeClass, cell: CellID, data: seq<Byte>, content: Option<Content>) {
    if c.PlainClass? then content.None? && IsPlain(hash, SizeBytes(sizeClass), cell, data)
    else data == [] && content.Some? && GoodContent(content.value)
         && content.value.pattern == PatternFor(c) && content.value.logicalSize == SizeBytes(sizeClass)
  }

  function VariantLeaf(env: Environment, t: SubTree, variant: nat, data: seq<Byte>, cell: CellID): Leaf
    requires t.XAttrs? || t.ACLs? || t.Timestamps?
  {
    match t
    case XAttrs => FileLeaf(FILE_MODE, data, None, Metadata(None, None, Some(env.xattrs(XAttrs, variant, cell)), None))
    case ACLs =>
      var metadata := Metadata(None, None, None, Some(ACLFor(variant)));
      if variant == DEFAULT_ON_DIR then DirLeaf(DIR_MODE, metadata) else FileLeaf(FILE_MODE, data, None, metadata)
    case Timestamps => FileLeaf(FILE_MODE, data, None, Metadata(None, Some(TimestampPair(variant)), None, None))
  }

  // ---------------------------------------------------------------- anchors and masks

  const ANCHOR_FILE := "anchor-file.bin"
  const ANCHOR_SYMLINK := "anchor-symlink.lnk"

  /** "coverage-anchor-file" */
  const ANCHOR_DATA: seq<Byte> := [99, 111, 118, 101, 114, 97, 103, 101, 45, 97, 110, 99, 104, 111, 114, 45, 102, 105, 108, 101]

  /** uint64(m) * 0x9E37 for the group sizes in use. */
  function Mask(m: nat): CellID
    requires m < 4
  {
    if m == 0 then 0 else if m == 1 then 0x9E37 else if m == 2 then 0x13C6E else 0x1DAA5
  }

  /** A mask for each member of a group: the multiples of one number. */
  lemma MasksAreMultiples(m: nat)
    requires m < 3
    ensures Mask(m + 1) == Mask(m) + 0x9E37 && Mask(0) == 0
  {
  }

  // ---------------------------------------------------------------- what a cell shows

  /** A plan in progress, seen from the root of one sub-tree. */
  datatype View = View(env: Environment, enabled: set<Capability>, root: Path, entries: seq<Entry>, dangling: set<Path>)

  ghost predicate Extended(v: View, w: View) {
    w == v.(entries := w.entries, dangling := w.dangling) && v.entries <= w.entries && v.dangling <= w.dangling
  }

  ghost predicate IsCell(root: Path, t: SubTree, wrapper: Path) {
    exists k: nat :: wrapper == root + [CellName(t, k)]
  }

  ghost predicate CellNamed(env: Environment, name: string, cls: NameClass, cell: CellID) {
    && NamesCell(name, cell)
    && |name| == (if cls.NearMaxBytes? then 255 else 16)
    && Edged(name[..|name| - SUFFIX_LEN], env.seedOf(cell), cls)
  }

  ghost predicate LeafAt(v: View, t: SubTree, cls: NameClass, cell: CellID, leaf: Leaf, wrapper: Path, name: string) {
    IsCell(v.root, t, wrapper) && CellNamed(v.env, name, cls, cell) && LeafEntry(v.enabled, wrapper + [name], leaf) in v.entries
  }

  ghost predicate LeafShown(v: View, t: SubTree, cls: NameClass, cell: CellID, leaf: Leaf) {
    exists wrapper, name :: LeafAt(v, t, cls, cell, leaf, wrapper, name)
  }

  predicate HasLink(v: View, p: Path, target: string) {
    SymlinkEntry(p, target, Stamped(v.enabled, NO_METADATA)) in v.entries
  }

  ghost predicate AnchorsShown(v: View) {
    && FileEntry(v.root + [ANCHOR_FILE], FILE_MODE, ANCHOR_DATA, None, Stamped(v.enabled, NO_METADATA)) in v.entries
    && HasLink(v, v.root + [ANCHOR_SYMLINK], ANCHOR_FILE)
  }

  ghost predicate LinkAt(v: View, strategy: Strategy, wrapper: Path, name: string) {
    var p := wrapper + [name];
    match strategy
    case Absolute => HasLink(v, p, Render(v.root + [ANCHOR_FILE]))
    case Relative => HasLink(v, p, RelString(wrapper, v.root + [ANCHOR_FILE]))
    case Dangling => exists other :: wrapper + [other] in v.dangling && HasLink(v, p, Render(wrapper + [other]))
    case SelfReferential => HasLink(v, p, name)
    case Chained => HasLink(v, p, RelString(wrapper, v.root + [ANCHOR_SYMLINK]))
    case Cycle => exists other :: other != name && HasLink(v, p, other) && HasLink(v, wrapper + [other], name)
    case UnknownStrategy(_) => false
  }

  ghost predicate LinkShown(v: View, strategy: Strategy, cls: NameClass, cell: CellID) {
    exists wrapper, name ::
      IsCell(v.root, Symlinks, wrapper) && CellNamed(v.env, name, cls, cell) && LinkAt(v, strategy, wrapper, name)
  }

  /** A file and links to it, all with different names in one directory. */
  ghost predicate GroupAt(v: View, size: nat, cls: NameClass, cell: CellID, wrapper: Path, names: seq<string>) {
    && |names| == size && size >= 1 && Distinct(names) && CellNamed(v.env, names[0], cls, cell)
    && (exists data :: IsPlain(v.env.hash, 64, cell, data)
          && FileEntry(wrapper + [names[0]], FILE_MODE, data, None, Stamped(v.enabled, NO_METADATA)) in v.entries)
    && MirrorsAt(v.entries, wrapper, names)
  }

  ghost predicate MirrorsAt(entries: seq<Entry>, wrapper: Path, names: seq<string>) {
    forall m :: 1 <= m < |names| ==> HardlinkEntry(wrapper + [names[m]], wrapper + [names[0]]) in entries
  }

  ghost predicate GroupShown(v: View, size: nat, cls: NameClass, cell: CellID) {
    exists wrapper, names :: IsCell(v.root, Hardlinks, wrapper) && GroupAt(v, size, cls, cell, wrapper, names)
  }

  ghost predicate SpecialShown(v: View, kind: SpecialType, mode: nat) {
    exists k: nat :: SpecialFor(v.enabled, v.root + [SpecialName(k, kind)], mode, kind) in v.entries
  }

  ghost predicate VariantShown(v: View, t: SubTree, variant: nat, cls: NameClass, cell: CellID)
    requires t.XAttrs? || t.ACLs? || t.Timestamps?
  {
    exists data :: IsPlain(v.env.hash, 16, cell, data) && LeafShown(v, t, cls, cell, VariantLeaf(v.env, t, variant, data, cell))
  }

  ghost predicate DirShown(v: View, tc: seq<int>, cell: CellID)
    requires Pairwise.InRange(Dimensions(v.enabled, Dirs), tc)
  {
    exists owner: nat :: LeafShown(v, Dirs, NameClassAt(tc[1]), cell, DirLeafFor(v.env, v.enabled, tc, owner, cell))
  }

  ghost predicate FileShown(v: View, tc: seq<int>, cell: CellID)
    requires Pairwise.InRange(Dimensions(v.enabled, Files), tc)
  {
    exists owner: nat, data, content ::
      PayloadOf(v.env.hash, ContentClassAt(tc[1]), SizeClassAt(tc[2]), cell, data, content)
      && LeafShown(v, Files, NameClassAt(tc[3]), cell, FileLeafFor(v.env, v.enabled, tc, owner, cell, data, content))
  }

  /** The plan realises repetition `rep` of a test case with every value it asks for. */
  ghost predicate CaseShown(v: View, t: SubTree, tc: seq<int>, rep: nat) {
    && Pairwise.InRange(Dimensions(v.enabled, t), tc) && tc != []
    && var cell := v.env.cell(t, tc, rep);
       match t
       case Dirs => DirShown(v, tc, cell)
       case Files => FileShown(v, tc, cell)
       case Symlinks => AnchorsShown(v) && LinkShown(v, StrategyAt(tc[0]), NameClassAt(tc[1]), cell)
       case Hardlinks => GroupShown(v, GROUP_SIZES[tc[0]], NameClassAt(tc[1]), cell)
       case Specials => SpecialShown(v, SpecialTypes(v.enabled)[tc[0]], ModeForFile(tc[1]))
       case _ => VariantShown(v, t, tc[0], NameClassAt(tc[1]), cell)
  }

  // ---------------------------------------------------------------- plans only grow

  lemma LeafStays(v: View, w: View, t: SubTree, cls: NameClass, cell: CellID, leaf: Leaf)
    requires Extended(v, w) && LeafShown(v, t, cls, cell, leaf)
    ensures LeafShown(w, t, cls, cell, leaf)
  {
    hide IsCell, CellNamed, LeafEntry;
    var wrapper, name :| LeafAt(v, t, cls, cell, leaf, wrapper, name);
    assert LeafAt(w, t, cls, cell, leaf, wrapper, name);
  }

  lemma LinkStays(v: View, w: View, strategy: Strategy, cls: NameClass, cell: CellID)
    requires Extended(v, w) && LinkShown(v, strategy, cls, cell)
    ensures LinkShown(w, strategy, cls, cell)
  {
    hide IsCell, CellNamed, Render, RelString, Stamped;
    var wrapper, name :|
      IsCell(v.root, Symlinks, wrapper) && CellNamed(v.env, name, cls, cell) && LinkAt(v, strategy, wrapper, name);
    assert forall p, target :: HasLink(v, p, target) ==> HasLink(w, p, target);
    assert LinkAt(w, strategy, wrapper, name);
  }

  lemma GroupStays(v: View, w: View, size: nat, cls: NameClass, cell: CellID)
    requires Extended(v, w) && GroupShown(v, size, cls, cell)
    ensures GroupShown(w, size, cls, cell)
  {
    hide IsCell, CellNamed, Stamped, IsPlain, Distinct;
    var wrapper, names :| IsCell(v.root, Hardlinks, wrapper) && GroupAt(v, size, cls, cell, wrapper, names);
    assert GroupAt(w, size, cls, cell, wrapper, names);
  }

  lemma LeavesStay(v: View, w: View)
    requires Extended(v, w)
    ensures forall t, cls, cell, leaf :: LeafShown(v, t, cls, cell, leaf) ==> LeafShown(w, t, cls, cell, leaf)
  {
    hide LeafShown, Extended;
    forall t, cls, cell, leaf | LeafShown(v, t, cls, cell, leaf) ensures LeafShown(w, t, cls, cell, leaf) {
      LeafStays(v, w, t, cls, cell, leaf);
    }
  }

  lemma DirStays(v: View, w: View, tc: seq<int>, cell: CellID)
    requires Extended(v, w) && Pairwise.InRange(Dimensions(v.enabled, Dirs), tc) && DirShown(v, tc, cell)
    ensures DirShown(w, tc, cell)
  {
    LeavesStay(v, w);
    hide LeafShown;
  }

  lemma FileStays(v: View, w: View, tc: seq<int>, cell: CellID)
    requires Extended(v, w) && Pairwise.InRange(Dimensions(v.enabled, Files), tc) && FileShown(v, tc, cell)
    ensures FileShown(w, tc, cell)
  {
    LeavesStay(v, w);
    hide LeafShown, PayloadOf, FileLeafFor;
  }

  lemma VariantStays(v: View, w: View, t: SubTree, variant: nat, cls: NameClass, cell: CellID)
    requires (t.XAttrs? || t.ACLs? || t.Timestamps?) && Extended(v, w) && VariantShown(v, t, variant, cls, cell)
    ensures VariantShown(w, t, variant, cls, cell)
  {
    LeavesStay(v, w);
    hide LeafShown, IsPlain, VariantLeaf;
  }

  lemma CaseStays(v: View, w: View, t: SubTree, tc: seq<int>, rep: nat)
    requires Extended(v, w) && CaseShown(v, t, tc, rep)
    ensures CaseShown(w, t, tc, rep)
  {
    hide DirShown, FileShown, VariantShown, LinkShown, GroupShown, Stamped, NameClassAt, SpecialName;
    var cell := v.env.cell(t, tc, rep);
    match t
    case Dirs => DirStays(v, w, tc, cell);
    case Files => FileStays(v, w, tc, cell);
    case Symlinks => LinkStays(v, w, StrategyAt(tc[0]), NameClassAt(tc[1]), cell);
    case Hardlinks => GroupStays(v, w, GROUP_SIZES[tc[0]], NameClassAt(tc[1]), cell);
    case Specials => SpecialStays(v, w, SpecialTypes(v.enabled)[tc[0]], ModeForFile(tc[1]));
    case _ => VariantStays(v, w, t, tc[0], NameClassAt(tc[1]), cell);
  }

  lemma SpecialStays(v: View, w: View, kind: SpecialType, mode: nat)
    requires Extended(v, w) && SpecialShown(v, kind, mode)
    ensures SpecialShown(w, kind, mode)
  {
    hide SpecialName, Stamped;
    var k: nat :| SpecialFor(v.enabled, v.root + [SpecialName(k, kind)], mode, kind) in v.entries;
    assert SpecialFor(w.enabled, w.root + [SpecialName(k, kind)], mode, kind) in w.entries;
  }

  // ---------------------------------------------------------------- the loops over cases and repetitions

  /** Every repetition of the cases before `idx`, and the repetitions of case `idx` before `rep`. */
  ghost predicate ShownUpTo(v: View, t: SubTree, cases: seq<seq<int>>, multiplier: int, idx: int, rep: int) {
    forall c, r :: 0 <= c < |cases| && 0 <= r < multiplier && (c < idx || (c == idx && r < rep)) ==> CaseShown(v, t, cases[c], r)
  }

  lemma NothingShown(v: View, t: SubTree, cases: seq<seq<int>>, multiplier: int)
    ensures ShownUpTo(v, t, cases, multiplier, 0, 0)
  {
  }

  lemma OneMoreShown(v: View, w: View, t: SubTree, cases: seq<seq<int>>, multiplier: int, idx: nat, rep: nat)
    requires ShownUpTo(v, t, cases, multiplier, idx, rep) && Extended(v, w)
    requires idx < |cases| && CaseShown(w, t, cases[idx], rep)
    ensures ShownUpTo(w, t, cases, multiplier, idx, rep + 1)
  {
    hide CaseShown, Extended;
    forall c, r | 0 <= c < |cases| && 0 <= r < multiplier && (c < idx || (c == idx && r < rep + 1))
      ensures CaseShown(w, t, cases[c], r)
    {
      if c == idx && r == rep {
      } else {
        CaseStays(v, w, t, cases[c], r);
      }
    }
  }

  lemma CaseFinished(v: View, t: SubTree, cases: seq<seq<int>>, multiplier: int, idx: nat, rep: nat)
    requires ShownUpTo(v, t, cases, multiplier, idx, rep) && rep >= multiplier
    ensures ShownUpTo(v, t, cases, multiplier, idx + 1, 0)
  {
    hide CaseShown;
  }

  // ---------------------------------------------------------------- pairs

  /** Some realised case holds both values of the pair. */
  ghost predicate PairShown(v: View, t: SubTree, p: Pairwise.Pair, rep: nat) {
    exists tc :: CaseShown(v, t, tc, rep) && Pairwise.Covers(tc, p)
  }

  /** Every pair of class values of the sub-tree is realised in every repetition. */
  ghost predicate PairsShown(v: View, t: SubTree, multiplier: int) {
    forall p, r :: Pairwise.ValidPair(Dimensions(v.enabled, t), p) && 0 <= r < multiplier ==> PairShown(v, t, p, r)
  }

  lemma AllCasesShowPairs(v: View, t: SubTree, cases: seq<seq<int>>, multiplier: int)
    requires Pairwise.Searching(Dimensions(v.enabled, t), cases, [])
    requires ShownUpTo(v, t, cases, multiplier, |cases|, 0)
    ensures PairsShown(v, t, multiplier)
  {
    hide CaseShown, Dimensions, Pairwise.Covers;
    Pairwise.SearchIsCovering(Dimensions(v.enabled, t), cases);
    forall p, r | Pairwise.ValidPair(Dimensions(v.enabled, t), p) && 0 <= r < multiplier
      ensures PairShown(v, t, p, r)
    {
      var k :| 0 <= k < |cases| && Pairwise.Covers(cases[k], p);
      assert CaseShown(v, t, cases[k], r);
    }
  }

  lemma NoDimensionsNoPairs(v: View, t: SubTree, multiplier: int)
    requires Dimensions(v.enabled, t) == []
    ensures PairsShown(v, t, multiplier)
  {
    hide Dimensions, CaseShown;
  }

  lemma PairsStay(v: View, w: View, t: SubTree, multiplier: int)
    requires Extended(v, w) && PairsShown(v, t, multiplier)
    ensures PairsShown(w, t, multiplier)
  {
    hide CaseShown, Dimensions, Pairwise.Covers;
    forall p, r | Pairwise.ValidPair(Dimensions(w.enabled, t), p) && 0 <= r < multiplier
      ensures PairShown(w, t, p, r)
    {
      assert PairShown(v, t, p, r);
      var tc :| CaseShown(v, t, tc, r) && Pairwise.Covers(tc, p);
      CaseStays(v, w, t, tc, r);
    }
  }
}
