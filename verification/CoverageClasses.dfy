/**
  coverage_enumerator.go: what a coverage plan covers, said on its entries. The index tables reach
  every class, and where `CoverageCells` counts pairs of indices, the plan holds an entry of the
  shape, the metadata and the payload that each pair of classes asks for.
 */
module CoverageClasses {
  import opened Wrappers
  import opened Sorting
  import opened Paths
  import opened FileSystem
  import opened PlanSpec
  import opened ContentPatterns
  import opened CoverageContent
  import opened CoverageNaming
  import opened CoveragePlan
  import opened CoverageCells
  import Pairwise

  // ---------------------------------------------------------------- the tables

  lemma StrategyTable(s: Strategy) returns (i: nat)
    requires !s.UnknownStrategy?
    ensures i < STRATEGIES && StrategyAt(i) == s && forall j: nat :: j < STRATEGIES && StrategyAt(j) == s ==> j == i
  {
    match s
    case Absolute => i := 0;
    case Relative => i := 1;
    case Dangling => i := 2;
    case SelfReferential => i := 3;
    case Chained => i := 4;
    case Cycle => i := 5;
  }

  lemma NameTable(c: NameClass) returns (i: nat)
    ensures i < NAME_CLASSES && NameClassAt(i) == c && forall j: nat :: j < NAME_CLASSES && NameClassAt(j) == c ==> j == i
  {
    match c
    case Basic => i := 0;
    case LeadingSpaces => i := 1;
    case TrailingSpaces => i := 2;
    case LeadingDots => i := 3;
    case NewlineTab => i := 4;
    case ControlChars => i := 5;
    case InvalidUTF8 => i := 6;
    case UnicodeNormalization => i := 7;
    case NearMaxBytes => i := 8;
  }

  lemma ContentTable(c: ContentClass) returns (i: nat)
    ensures i < CONTENT_CLASSES && ContentClassAt(i) == c
    ensures forall j: nat :: j < CONTENT_CLASSES && ContentClassAt(j) == c ==> j == i
  {
    match c
    case PlainClass => i := 0;
    case DenseRandomClass => i := 1;
    case SparseHolesClass => i := 2;
    case RepeatedBlocksClass => i := 3;
    case PartialRangeOverwriteClass => i := 4;
  }

  lemma SizeTable(c: SizeClass) returns (i: nat)
    ensures i < SIZE_CLASSES && SizeClassAt(i) == c && forall j: nat :: j < SIZE_CLASSES && SizeClassAt(j) == c ==> j == i
  {
    match c
    case Zero => i := 0;
    case One => i := 1;
    case Tiny => i := 2;
    case BelowChunk => i := 3;
    case ExactChunk => i := 4;
    case AboveChunk => i := 5;
    case TwoChunksPlusTail => i := 6;
  }

  /** Sizes grow from class to class, around one chunk and past two. */
  lemma SizesAroundChunk()
    ensures 0 == SizeBytes(Zero) < SizeBytes(One) == 1 < SizeBytes(Tiny) < SizeBytes(BelowChunk)
    ensures SizeBytes(BelowChunk) + 1 == SizeBytes(ExactChunk) == CHUNK == SizeBytes(AboveChunk) - 1
    ensures 2 * CHUNK < SizeBytes(TwoChunksPlusTail) < 3 * CHUNK
  {
  }

  const SETUID := 2048
  const SETGID := 1024
  const STICKY := 512

  /** rwxr-x--- */
  const NARROW := 488

  /** Plain files with and without execute bits, and each combination of special bits. */
  const FILE_MODES := {FILE_MODE, DIR_MODE, SETUID + NARROW, SETGID + NARROW, STICKY + NARROW, SETUID + SETGID + NARROW}
  const DIR_MODES := FILE_MODES - {FILE_MODE}

  lemma FileModeTable(mode: nat) returns (i: nat)
    requires mode in FILE_MODES
    ensures i < MODE_CLASSES && ModeForFile(i) == mode && forall j: nat :: j < MODE_CLASSES && ModeForFile(j) == mode ==> j == i
  {
    if mode == FILE_MODE { i := 0; } else if mode == DIR_MODE { i := 1; } else if mode == SETUID + NARROW { i := 2; }
    else if mode == SETGID + NARROW { i := 3; } else if mode == STICKY + NARROW { i := 4; } else { i := 5; }
  }

  /** Directories have no class of their own for regular files' modes: the first two share one. */
  lemma DirModeTable(mode: nat) returns (i: nat)
    requires mode in DIR_MODES
    ensures i < MODE_CLASSES && ModeForDir(i) == mode
    ensures forall j: nat :: j < MODE_CLASSES && ModeForDir(j) == mode ==> j == i || (j == 0 && i == 1)
  {
    i := FileModeTable(mode);
  }

  lemma ModesInTable(i: nat)
    requires i < MODE_CLASSES
    ensures ModeForFile(i) in FILE_MODES && ModeForDir(i) in DIR_MODES
  {
  }

  /** The classes whose capabilities are there. */
  predicate MetadataEnabled(enabled: set<Capability>, cls: MetadataClass) {
    match cls
    case NoMetadata => true
    case OwnershipOnly => OwnershipCap in enabled
    case TimestampsOnly => TimestampsCap in enabled
    case FullMetadata => OwnershipCap in enabled && TimestampsCap in enabled && XAttrUserCap in enabled && ACLCap in enabled
  }

  lemma MetadataTable(enabled: set<Capability>)
    ensures forall cls :: cls in MetadataValues(enabled) <==> MetadataEnabled(enabled, cls)
    ensures forall i, j :: 0 <= i < j < |MetadataValues(enabled)| ==> MetadataValues(enabled)[i] != MetadataValues(enabled)[j]
  {
  }

  lemma MetadataIndex(enabled: set<Capability>, cls: MetadataClass) returns (i: nat)
    requires MetadataEnabled(enabled, cls)
    ensures i < |MetadataValues(enabled)| && MetadataValues(enabled)[i] == cls
  {
    MetadataTable(enabled);
    i :| 0 <= i < |MetadataValues(enabled)| && MetadataValues(enabled)[i] == cls;
  }

  // ---------------------------------------------------------------- metadata

  /** Owners a realised class may carry. */
  predicate OwnerOf(env: Environment, enabled: set<Capability>, owner: (int, int)) {
    if NonDefaultOwnershipCap in enabled then owner == (0, 0) || owner == (1000, 1000) || owner == (65534, 65534)
    else owner == (env.uid, env.gid)
  }

  /** Times whenever they can be set; owner, attributes and ACL exactly when the class has them. */
  predicate MetadataShows(env: Environment, enabled: set<Capability>, cls: MetadataClass, xattrs: map<string, seq<Byte>>, acl: seq<string>,
                          metadata: Metadata) {
    && (metadata.times.Some? <==> TimestampsCap in enabled)
    && (metadata.owner.Some? <==> cls == OwnershipOnly || cls == FullMetadata)
    && (metadata.owner.Some? ==> OwnerOf(env, enabled, metadata.owner.value))
    && metadata.xattrs == (if cls == FullMetadata && xattrs != map[] then Some(xattrs) else None)
    && metadata.acl == (if cls == FullMetadata then Some(acl) else None)
  }

  lemma ClassMetadata(env: Environment, enabled: set<Capability>, cls: MetadataClass, owner: nat, variant: nat,
                      xattrs: map<string, seq<Byte>>, acl: seq<string>)
    requires MetadataEnabled(enabled, cls) && acl != []
    ensures MetadataShows(env, enabled, cls, xattrs, acl, Stamped(enabled, MetadataFor(env, enabled, cls, owner, variant, xattrs, acl)))
    ensures TimestampsCap in enabled ==>
      Stamped(enabled, MetadataFor(env, enabled, cls, owner, variant, xattrs, acl)).times == Some(TimestampPair(variant))
  {
  }

  /** With privileges, owners rotate through three accounts. */
  lemma OwnersRotate(env: Environment, enabled: set<Capability>, i: nat)
    requires NonDefaultOwnershipCap in enabled
    ensures {EffectiveOwnership(env, enabled, i), EffectiveOwnership(env, enabled, i + 1), EffectiveOwnership(env, enabled, i + 2)}
         == {(0, 0), (1000, 1000), (65534, 65534)}
    ensures i % 3 == 0 ==> EffectiveOwnership(env, enabled, i) == (0, 0) && EffectiveOwnership(env, enabled, i + 1) == (1000, 1000)
  {
  }

  /** How access and modification time stand to each other and to the fixed anchor. */
  datatype TimesFlavour = AtZero | InPast | InFuture | AccessFirst | ModifyFirst

  predicate TimesOf(flavour: TimesFlavour, times: (int, int)) {
    match flavour
    case AtZero => times == (0, 0)
    case InPast => times.0 == times.1 == EPOCH - 31_536_000_000_000_000
    case InFuture => times.0 == times.1 == EPOCH + 31_536_000_000_000_000
    case AccessFirst => times.0 == EPOCH && times.1 == EPOCH + 3_600_000_000_000
    case ModifyFirst => times.1 == EPOCH && times.0 == EPOCH + 3_600_000_000_000
  }

  /** The flavour a file's cell picks, each fifth cell the same. */
  function FlavourOfCell(cell: CellID): TimesFlavour {
    if cell % 5 == 0 then AtZero else if cell % 5 == 1 then InPast else if cell % 5 == 2 then InFuture
    else if cell % 5 == 3 then AccessFirst else ModifyFirst
  }

  /** Nothing but times, and those whenever they can be set. */
  predicate TimesOnly(enabled: set<Capability>, metadata: Metadata) {
    metadata.owner.None? && metadata.xattrs.None? && metadata.acl.None? && (metadata.times.Some? <==> TimestampsCap in enabled)
  }

  lemma NothingStamped(enabled: set<Capability>)
    ensures TimesOnly(enabled, Stamped(enabled, NO_METADATA))
  {
  }

  // ---------------------------------------------------------------- directories and files

  datatype DirClass = DirClass(mode: nat, name: NameClass, metadata: MetadataClass)
  datatype FileClass = FileClass(mode: nat, content: ContentClass, size: SizeClass, name: NameClass, metadata: MetadataClass)

  predicate KnownDir(enabled: set<Capability>, c: DirClass) {
    c.mode in DIR_MODES && MetadataEnabled(enabled, c.metadata)
  }

  predicate KnownFile(enabled: set<Capability>, c: FileClass) {
    c.mode in FILE_MODES && MetadataEnabled(enabled, c.metadata)
  }

  predicate SameDirClass(d: int, a: DirClass, b: DirClass) {
    if d == 0 then a.mode == b.mode else if d == 1 then a.name == b.name else a.metadata == b.metadata
  }

  predicate SameFileClass(d: int, a: FileClass, b: FileClass) {
    if d == 0 then a.mode == b.mode else if d == 1 then a.content == b.content else if d == 2 then a.size == b.size
    else if d == 3 then a.name == b.name else a.metadata == b.metadata
  }

  /** A planned directory of the class, in a wrapper of its own. */
  ghost predicate DirPlanned(v: View, c: DirClass, cell: CellID) {
    exists wrapper, name, metadata ::
      && IsCell(v.root, Dirs, wrapper) && CellNamed(v.env, name, c.name, cell)
      && DirEntry(wrapper + [name], c.mode, metadata) in v.entries
      && MetadataShows(v.env, v.enabled, c.metadata, v.env.xattrs(Dirs, 0, cell), DIR_ACL, metadata)
      && (metadata.times.Some? ==> TimesOf(InPast, metadata.times.value))
  }

  ghost predicate FilePlanned(v: View, c: FileClass, cell: CellID) {
    exists wrapper, name, data, content, metadata ::
      && IsCell(v.root, Files, wrapper) && CellNamed(v.env, name, c.name, cell)
      && FileEntry(wrapper + [name], c.mode, data, content, metadata) in v.entries
      && PayloadOf(v.env.hash, c.content, c.size, cell, data, content)
      && MetadataShows(v.env, v.enabled, c.metadata, v.env.xattrs(Files, 0, cell), FILE_ACL, metadata)
      && (metadata.times.Some? ==> TimesOf(FlavourOfCell(cell), metadata.times.value))
  }

  /** A cell with the wanted class in one dimension and the wanted class in another. */
  ghost predicate DirPairPlanned(v: View, d1: int, a: DirClass, d2: int, b: DirClass, rep: nat) {
    exists c, tc :: SameDirClass(d1, a, c) && SameDirClass(d2, b, c) && DirPlanned(v, c, v.env.cell(Dirs, tc, rep))
  }

  ghost predicate FilePairPlanned(v: View, d1: int, a: FileClass, d2: int, b: FileClass, rep: nat) {
    exists c, tc :: SameFileClass(d1, a, c) && SameFileClass(d2, b, c) && FilePlanned(v, c, v.env.cell(Files, tc, rep))
  }

  function DirClassOf(enabled: set<Capability>, tc: seq<int>): DirClass
    requires Pairwise.InRange(Dimensions(enabled, Dirs), tc)
  {
    DirClass(ModeForDir(tc[0]), NameClassAt(tc[1]), MetadataValues(enabled)[tc[2]])
  }

  function FileClassOf(enabled: set<Capability>, tc: seq<int>): FileClass
    requires Pairwise.InRange(Dimensions(enabled, Files), tc)
  {
    FileClass(ModeForFile(tc[0]), ContentClassAt(tc[1]), SizeClassAt(tc[2]), NameClassAt(tc[3]), MetadataValues(enabled)[tc[4]])
  }

  lemma DirCasePlanned(v: View, tc: seq<int>, rep: nat)
    requires CaseShown(v, Dirs, tc, rep)
    ensures DirPlanned(v, DirClassOf(v.enabled, tc), v.env.cell(Dirs, tc, rep))
  {
    var cell := v.env.cell(Dirs, tc, rep);
    var owner: nat :| LeafShown(v, Dirs, NameClassAt(tc[1]), cell, DirLeafFor(v.env, v.enabled, tc, owner, cell));
    var leaf := DirLeafFor(v.env, v.enabled, tc, owner, cell);
    var wrapper, name :| LeafAt(v, Dirs, NameClassAt(tc[1]), cell, leaf, wrapper, name);
    var c := DirClassOf(v.enabled, tc);
    MetadataTable(v.enabled);
    ClassMetadata(v.env, v.enabled, c.metadata, owner, PAST, v.env.xattrs(Dirs, 0, cell), DIR_ACL);
    assert TimesOf(InPast, TimestampPair(PAST));
    hide MetadataFor, Stamped, MetadataShows, IsCell, CellNamed, NameClassAt, ModeForDir, MetadataValues, MetadataEnabled, TimesOf,
      TimestampPair;
    var metadata := Stamped(v.enabled, leaf.metadata);
    assert DirEntry(wrapper + [name], c.mode, metadata) in v.entries;
  }

  lemma CellTimes(cell: CellID)
    ensures TimesOf(FlavourOfCell(cell), TimestampPair(TimestampForCell(cell)))
  {
  }

  lemma FileCasePlanned(v: View, tc: seq<int>, rep: nat)
    requires CaseShown(v, Files, tc, rep)
    ensures FilePlanned(v, FileClassOf(v.enabled, tc), v.env.cell(Files, tc, rep))
  {
    var cell := v.env.cell(Files, tc, rep);
    var c := FileClassOf(v.enabled, tc);
    var owner: nat, data, content :| PayloadOf(v.env.hash, c.content, c.size, cell, data, content)
      && LeafShown(v, Files, c.name, cell, FileLeafFor(v.env, v.enabled, tc, owner, cell, data, content));
    var leaf := FileLeafFor(v.env, v.enabled, tc, owner, cell, data, content);
    var wrapper, name :| LeafAt(v, Files, c.name, cell, leaf, wrapper, name);
    MetadataTable(v.enabled);
    CellTimes(cell);
    ClassMetadata(v.env, v.enabled, c.metadata, owner, TimestampForCell(cell), v.env.xattrs(Files, 0, cell), FILE_ACL);
    hide MetadataFor, Stamped, MetadataShows, IsCell, CellNamed, NameClassAt, ModeForFile, MetadataValues, MetadataEnabled, PayloadOf,
      ContentClassAt, SizeClassAt, TimestampForCell, TimesOf, FlavourOfCell, TimestampPair;
    var metadata := Stamped(v.enabled, leaf.metadata);
    assert FileEntry(wrapper + [name], c.mode, data, content, metadata) in v.entries;
  }

  // ---------------------------------------------------------------- pairs of classes

  lemma CaseOfPair(v: View, t: SubTree, multiplier: int, rep: nat, d1: nat, i: nat, d2: nat, j: nat) returns (tc: seq<int>)
    requires PairsShown(v, t, multiplier) && rep < multiplier
    requires d1 < d2 < |Dimensions(v.enabled, t)| && i < Dimensions(v.enabled, t)[d1] && j < Dimensions(v.enabled, t)[d2]
    ensures CaseShown(v, t, tc, rep) && |tc| == |Dimensions(v.enabled, t)| && tc[d1] == i && tc[d2] == j
  {
    hide Dimensions;
    var p := Pairwise.Pair(d1, d2, i, j);
    assert Pairwise.ValidPair(Dimensions(v.enabled, t), p) && PairShown(v, t, p, rep);
    tc :| CaseShown(v, t, tc, rep) && Pairwise.Covers(tc, p);
  }

  lemma DirIndex(enabled: set<Capability>, d: nat, c: DirClass) returns (i: nat)
    requires d < 3 && KnownDir(enabled, c)
    ensures i < Dimensions(enabled, Dirs)[d]
    ensures forall tc :: Pairwise.InRange(Dimensions(enabled, Dirs), tc) && tc[d] == i ==> SameDirClass(d, c, DirClassOf(enabled, tc))
  {
    hide MetadataValues, MetadataEnabled, ModeForDir, NameClassAt;
    if d == 0 { i := DirModeTable(c.mode); } else if d == 1 { i := NameTable(c.name); } else { i := MetadataIndex(enabled, c.metadata); }
  }

  lemma FileIndex(enabled: set<Capability>, d: nat, c: FileClass) returns (i: nat)
    requires d < 5 && KnownFile(enabled, c)
    ensures i < Dimensions(enabled, Files)[d]
    ensures forall tc :: Pairwise.InRange(Dimensions(enabled, Files), tc) && tc[d] == i ==> SameFileClass(d, c, FileClassOf(enabled, tc))
  {
    hide MetadataValues, MetadataEnabled, ModeForFile, NameClassAt, ContentClassAt, SizeClassAt;
    if d == 0 { i := FileModeTable(c.mode); } else if d == 1 { i := ContentTable(c.content); } else if d == 2 { i := SizeTable(c.size); }
    else if d == 3 { i := NameTable(c.name); } else { i := MetadataIndex(enabled, c.metadata); }
  }

  lemma DirPairs(v: View, multiplier: int, d1: nat, a: DirClass, d2: nat, b: DirClass, rep: nat)
    requires PairsShown(v, Dirs, multiplier) && rep < multiplier
    requires d1 < d2 < 3 && KnownDir(v.enabled, a) && KnownDir(v.enabled, b)
    ensures DirPairPlanned(v, d1, a, d2, b, rep)
  {
    hide PairsShown, DirPlanned, MetadataValues, MetadataEnabled, ModeForDir, NameClassAt, SameDirClass, DirClassOf, DirShown;
    var i := DirIndex(v.enabled, d1, a);
    var j := DirIndex(v.enabled, d2, b);
    var tc := CaseOfPair(v, Dirs, multiplier, rep, d1, i, d2, j);
    DirCasePlanned(v, tc, rep);
    assert SameDirClass(d1, a, DirClassOf(v.enabled, tc)) && SameDirClass(d2, b, DirClassOf(v.enabled, tc));
  }

  lemma FilePairs(v: View, multiplier: int, d1: nat, a: FileClass, d2: nat, b: FileClass, rep: nat)
    requires PairsShown(v, Files, multiplier) && rep < multiplier
    requires d1 < d2 < 5 && KnownFile(v.enabled, a) && KnownFile(v.enabled, b)
    ensures FilePairPlanned(v, d1, a, d2, b, rep)
  {
    hide PairsShown, FilePlanned, MetadataValues, MetadataEnabled, ModeForFile, NameClassAt, ContentClassAt, SizeClassAt, SameFileClass,
      FileClassOf, FileShown;
    var i := FileIndex(v.enabled, d1, a);
    var j := FileIndex(v.enabled, d2, b);
    var tc := CaseOfPair(v, Files, multiplier, rep, d1, i, d2, j);
    FileCasePlanned(v, tc, rep);
    assert SameFileClass(d1, a, FileClassOf(v.enabled, tc)) && SameFileClass(d2, b, FileClassOf(v.enabled, tc));
  }

  // ---------------------------------------------------------------- links

  /** A planned symbolic link with nothing but times. */
  ghost predicate PlansLink(v: View, p: Path, target: string) {
    exists metadata :: SymlinkEntry(p, target, metadata) in v.entries && TimesOnly(v.enabled, metadata)
  }

  /** The link or links of a strategy, around the two anchors in the sub-tree's root. */
  ghost predicate LinkPlannedAt(v: View, strategy: Strategy, wrapper: Path, name: string) {
    var p := wrapper + [name];
    match strategy
    case Absolute => PlansLink(v, p, Render(v.root + [ANCHOR_FILE]))
    case Relative => PlansLink(v, p, RelString(wrapper, v.root + [ANCHOR_FILE]))
    case Dangling => exists other :: wrapper + [other] in v.dangling && PlansLink(v, p, Render(wrapper + [other]))
    case SelfReferential => PlansLink(v, p, name)
    case Chained =>
      PlansLink(v, p, RelString(wrapper, v.root + [ANCHOR_SYMLINK])) && PlansLink(v, v.root + [ANCHOR_SYMLINK], ANCHOR_FILE)
    case Cycle => exists other :: other != name && PlansLink(v, p, other) && PlansLink(v, wrapper + [other], name)
    case UnknownStrategy(_) => false
  }

  ghost predicate AnchorPlanned(v: View) {
    exists data, metadata :: FileEntry(v.root + [ANCHOR_FILE], FILE_MODE, data, None, metadata) in v.entries && TimesOnly(v.enabled, metadata)
  }

  ghost predicate LinkPlanned(v: View, strategy: Strategy, cls: NameClass, rep: nat) {
    exists wrapper, name, tc ::
      IsCell(v.root, Symlinks, wrapper) && CellNamed(v.env, name, cls, v.env.cell(Symlinks, tc, rep)) && LinkPlannedAt(v, strategy, wrapper, name)
  }

  lemma HasLinkPlans(v: View)
    ensures forall p, target :: HasLink(v, p, target) ==> PlansLink(v, p, target)
  {
    NothingStamped(v.enabled);
    hide Stamped, TimesOnly;
  }

  lemma LinksPlanned(v: View, multiplier: int, strategy: Strategy, cls: NameClass, rep: nat)
    requires PairsShown(v, Symlinks, multiplier) && rep < multiplier && SymlinksCap in v.enabled && !strategy.UnknownStrategy?
    ensures AnchorPlanned(v) && LinkPlanned(v, strategy, cls, rep)
  {
    hide PairsShown, CellNamed, IsCell, PlansLink, HasLink, StrategyAt, NameClassAt, Stamped, Render, RelString;
    var i := StrategyTable(strategy);
    var j := NameTable(cls);
    var tc := CaseOfPair(v, Symlinks, multiplier, rep, 0, i, 1, j);
    HasLinkPlans(v);
    NothingStamped(v.enabled);
    hide TimesOnly;
    var wrapper, name :| IsCell(v.root, Symlinks, wrapper) && CellNamed(v.env, name, cls, v.env.cell(Symlinks, tc, rep))
      && LinkAt(v, strategy, wrapper, name);
    assert LinkPlannedAt(v, strategy, wrapper, name);
  }

  /** A file of 64 bytes and its links, under different names in one directory. */
  ghost predicate GroupPlannedAt(v: View, size: nat, cls: NameClass, cell: CellID, wrapper: Path, names: seq<string>) {
    && |names| == size && size >= 1 && Distinct(names) && CellNamed(v.env, names[0], cls, cell)
    && (exists data, metadata :: IsPlain(v.env.hash, 64, cell, data) && TimesOnly(v.enabled, metadata)
          && FileEntry(wrapper + [names[0]], FILE_MODE, data, None, metadata) in v.entries)
    && MirrorsAt(v.entries, wrapper, names)
  }

  ghost predicate GroupPlanned(v: View, size: nat, cls: NameClass, rep: nat) {
    exists wrapper, names, tc :: IsCell(v.root, Hardlinks, wrapper) && GroupPlannedAt(v, size, cls, v.env.cell(Hardlinks, tc, rep), wrapper, names)
  }

  lemma GroupsPlanned(v: View, multiplier: int, size: nat, cls: NameClass, rep: nat)
    requires PairsShown(v, Hardlinks, multiplier) && rep < multiplier && HardlinksCap in v.enabled && 2 <= size <= 4
    ensures GroupPlanned(v, size, cls, rep)
  {
    hide PairsShown, CellNamed, IsCell, NameClassAt, Stamped, IsPlain, MirrorsAt, Distinct;
    var j := NameTable(cls);
    var tc := CaseOfPair(v, Hardlinks, multiplier, rep, 0, size - 2, 1, j);
    NothingStamped(v.enabled);
    hide TimesOnly;
    assert GROUP_SIZES[tc[0]] == size;
    var wrapper, names :| IsCell(v.root, Hardlinks, wrapper) && GroupAt(v, size, cls, v.env.cell(Hardlinks, tc, rep), wrapper, names);
    assert GroupPlannedAt(v, size, cls, v.env.cell(Hardlinks, tc, rep), wrapper, names);
  }

  // ---------------------------------------------------------------- special files and variants

  ghost predicate SpecialPlanned(v: View, kind: SpecialType, mode: nat) {
    exists name, metadata :: TimesOnly(v.enabled, metadata)
      && (if IsDevice(kind) then SpecialEntry(v.root + [name], mode, kind, 1, 3, metadata) else SpecialEntry(v.root + [name], mode, kind, 0, 0, metadata))
         in v.entries
  }

  lemma SpecialsPlanned(v: View, multiplier: int, kind: SpecialType, mode: nat, rep: nat)
    requires PairsShown(v, Specials, multiplier) && rep < multiplier && SpecialAllowed(v.enabled, kind)
    requires mode == FILE_MODE || mode == DIR_MODE
    ensures SpecialPlanned(v, kind, mode)
  {
    hide PairsShown, Stamped, SpecialName;
    var types := SpecialTypes(v.enabled);
    assert kind in types;
    var i :| 0 <= i < |types| && types[i] == kind;
    var tc := CaseOfPair(v, Specials, multiplier, rep, 0, i, 1, if mode == FILE_MODE then 0 else 1);
    NothingStamped(v.enabled);
    hide TimesOnly, SpecialTypes;
    var k: nat :| SpecialFor(v.enabled, v.root + [SpecialName(k, kind)], mode, kind) in v.entries;
  }

  /** A planned file, or directory, of a variant with the given metadata. */
  ghost predicate VariantPlanned(v: View, t: SubTree, isDir: bool, cls: NameClass, cell: CellID, metadata: Metadata) {
    exists wrapper, name, data ::
      && IsCell(v.root, t, wrapper) && CellNamed(v.env, name, cls, cell) && IsPlain(v.env.hash, 16, cell, data)
      && (if isDir then DirEntry(wrapper + [name], DIR_MODE, metadata) else FileEntry(wrapper + [name], FILE_MODE, data, None, metadata)) in v.entries
  }

  lemma VariantOfCase(v: View, t: SubTree, tc: seq<int>, rep: nat)
    requires (t.XAttrs? || t.ACLs? || t.Timestamps?) && CaseShown(v, t, tc, rep)
    ensures var cell := v.env.cell(t, tc, rep);
            var leaf := VariantLeaf(v.env, t, tc[0], [], cell);
            VariantPlanned(v, t, leaf.DirLeaf?, NameClassAt(tc[1]), cell, Stamped(v.enabled, leaf.metadata))
  {
    var cell := v.env.cell(t, tc, rep);
    hide IsCell, CellNamed, NameClassAt, IsPlain, Stamped, TimestampPair, ACLFor;
    var data :| IsPlain(v.env.hash, 16, cell, data) && LeafShown(v, t, NameClassAt(tc[1]), cell, VariantLeaf(v.env, t, tc[0], data, cell));
    var leaf := VariantLeaf(v.env, t, tc[0], data, cell);
    var wrapper, name :| LeafAt(v, t, NameClassAt(tc[1]), cell, leaf, wrapper, name);
  }

  /** The attribute values of a variant, and nothing else but times. */
  ghost predicate XAttrPlanned(v: View, variant: nat, cls: NameClass, rep: nat) {
    exists tc, metadata ::
      var cell := v.env.cell(XAttrs, tc, rep);
      VariantPlanned(v, XAttrs, false, cls, cell, metadata)
      && metadata.xattrs == Some(v.env.xattrs(XAttrs, variant, cell)) && metadata.owner.None? && metadata.acl.None?
  }

  lemma XAttrsPlanned(v: View, multiplier: int, variant: nat, cls: NameClass, rep: nat)
    requires PairsShown(v, XAttrs, multiplier) && rep < multiplier && XAttrUserCap in v.enabled
    requires variant < 4 + |v.enabled * {XAttrTrustedCap, XAttrSecurityCap}|
    ensures XAttrPlanned(v, variant, cls, rep)
  {
    OptionalVariants(v.enabled);
    hide PairsShown, NameClassAt, VariantPlanned, CaseShown;
    var j := NameTable(cls);
    var tc := CaseOfPair(v, XAttrs, multiplier, rep, 0, variant, 1, j);
    assert Pairwise.InRange(Dimensions(v.enabled, XAttrs), tc) by { assert CaseShown(v, XAttrs, tc, rep); InCase(v, XAttrs, tc, rep); }
    VariantOfCase(v, XAttrs, tc, rep);
    var cell := v.env.cell(XAttrs, tc, rep);
    assert VariantPlanned(v, XAttrs, false, cls, cell, Stamped(v.enabled, VariantLeaf(v.env, XAttrs, variant, [], cell).metadata));
  }

  lemma InCase(v: View, t: SubTree, tc: seq<int>, rep: nat)
    requires CaseShown(v, t, tc, rep)
    ensures Pairwise.InRange(Dimensions(v.enabled, t), tc)
  {
    hide Dimensions;
  }

  lemma OptionalVariants(enabled: set<Capability>)
    requires XAttrUserCap in enabled
    ensures Variants(enabled, XAttrs) == 4 + |enabled * {XAttrTrustedCap, XAttrSecurityCap}|
  {
    var optional := enabled * {XAttrTrustedCap, XAttrSecurityCap};
    if XAttrTrustedCap in enabled && XAttrSecurityCap in enabled { assert optional == {XAttrTrustedCap, XAttrSecurityCap}; }
    else if XAttrTrustedCap in enabled { assert optional == {XAttrTrustedCap}; }
    else if XAttrSecurityCap in enabled { assert optional == {XAttrSecurityCap}; }
    else { assert optional == {}; }
  }

  /** The flavours of ACL lists: base entries alone, named entries with a mask, default entries on a directory. */
  datatype ACLFlavour = BaseACL | NamedACL | DefaultACL

  predicate ACLOf(flavour: ACLFlavour, acl: seq<string>) {
    match flavour
    case BaseACL => acl == ["u::rw-", "g::r--", "o::---"]
    case NamedACL => "u:1000:r--" in acl && "g:1000:r--" in acl && "m::r--" in acl && ["u::rw-", "g::r--", "o::---"] <= acl
    case DefaultACL =>
      ["u::rwx", "g::r-x", "o::---"] <= acl && "default:u::rwx" in acl && "default:g::r-x" in acl && "default:o::---" in acl
  }

  ghost predicate ACLPlanned(v: View, flavour: ACLFlavour, cls: NameClass, rep: nat) {
    exists tc, metadata ::
      VariantPlanned(v, ACLs, flavour.DefaultACL?, cls, v.env.cell(ACLs, tc, rep), metadata)
      && metadata.acl.Some? && ACLOf(flavour, metadata.acl.value) && metadata.owner.None? && metadata.xattrs.None?
  }

  lemma FlavourTable(flavour: ACLFlavour) returns (i: nat)
    ensures i < ACL_VARIANTS && ACLOf(flavour, ACLFor(i)) && (flavour.DefaultACL? <==> i == DEFAULT_ON_DIR)
    ensures forall j: nat :: j < ACL_VARIANTS && ACLOf(flavour, ACLFor(j)) ==> j == i
  {
    var named := FILE_ACL + ["u:1000:r--", "g:1000:r--", "m::r--"];
    var deflt := DIR_ACL + ["default:u::rwx", "default:g::r-x", "default:o::---"];
    assert named[3] == "u:1000:r--" && named[4] == "g:1000:r--" && named[5] == "m::r--" && named[..3] == FILE_ACL && |named| == 6;
    assert deflt[3] == "default:u::rwx" && deflt[4] == "default:g::r-x" && deflt[5] == "default:o::---" && deflt[..3] == DIR_ACL && |deflt| == 6;
    i := if flavour.BaseACL? then 0 else if flavour.NamedACL? then 1 else 2;
  }

  lemma ACLsPlanned(v: View, multiplier: int, flavour: ACLFlavour, cls: NameClass, rep: nat)
    requires PairsShown(v, ACLs, multiplier) && rep < multiplier && ACLCap in v.enabled
    ensures ACLPlanned(v, flavour, cls, rep)
  {
    hide PairsShown, NameClassAt, VariantPlanned, CaseShown, ACLOf, ACLFor;
    var i := FlavourTable(flavour);
    var j := NameTable(cls);
    var tc := CaseOfPair(v, ACLs, multiplier, rep, 0, i, 1, j);
    VariantOfCase(v, ACLs, tc, rep);
    var leaf := VariantLeaf(v.env, ACLs, i, [], v.env.cell(ACLs, tc, rep));
    assert VariantPlanned(v, ACLs, flavour.DefaultACL?, cls, v.env.cell(ACLs, tc, rep), Stamped(v.enabled, leaf.metadata));
  }

  ghost predicate TimesPlanned(v: View, flavour: TimesFlavour, cls: NameClass, rep: nat) {
    exists tc, metadata ::
      VariantPlanned(v, Timestamps, false, cls, v.env.cell(Timestamps, tc, rep), metadata)
      && metadata.times.Some? && TimesOf(flavour, metadata.times.value)
      && metadata.owner.None? && metadata.xattrs.None? && metadata.acl.None?
  }

  lemma TimesTable(flavour: TimesFlavour) returns (i: nat)
    ensures i < TIMESTAMP_VARIANTS && TimesOf(flavour, TimestampPair(i))
    ensures forall j: nat :: j < TIMESTAMP_VARIANTS && TimesOf(flavour, TimestampPair(j)) ==> j == i
  {
    match flavour
    case AtZero => i := 0;
    case InPast => i := 1;
    case InFuture => i := 2;
    case AccessFirst => i := 3;
    case ModifyFirst => i := 4;
  }

  lemma EachTimesFlavour(i: nat) returns (flavour: TimesFlavour)
    requires i < TIMESTAMP_VARIANTS
    ensures TimesOf(flavour, TimestampPair(i))
  {
    flavour := if i == 0 then AtZero else if i == 1 then InPast else if i == 2 then InFuture else if i == 3 then AccessFirst else ModifyFirst;
  }

  lemma TimestampsPlanned(v: View, multiplier: int, flavour: TimesFlavour, cls: NameClass, rep: nat)
    requires PairsShown(v, Timestamps, multiplier) && rep < multiplier && TimestampsCap in v.enabled
    ensures TimesPlanned(v, flavour, cls, rep)
  {
    hide PairsShown, NameClassAt, VariantPlanned, CaseShown, TimesOf, TimestampPair;
    var i := TimesTable(flavour);
    var j := NameTable(cls);
    var tc := CaseOfPair(v, Timestamps, multiplier, rep, 0, i, 1, j);
    VariantOfCase(v, Timestamps, tc, rep);
    var leaf := VariantLeaf(v.env, Timestamps, i, [], v.env.cell(Timestamps, tc, rep));
    assert VariantPlanned(v, Timestamps, false, cls, v.env.cell(Timestamps, tc, rep), Stamped(v.enabled, leaf.metadata));
  }

  // ---------------------------------------------------------------- every sub-tree

  ghost predicate DirsCovered(v: View, rep: nat) {
    forall d1, d2, a, b :: 0 <= d1 < d2 < 3 && KnownDir(v.enabled, a) && KnownDir(v.enabled, b) ==> DirPairPlanned(v, d1, a, d2, b, rep)
  }

  ghost predicate FilesCovered(v: View, rep: nat) {
    forall d1, d2, a, b :: 0 <= d1 < d2 < 5 && KnownFile(v.enabled, a) && KnownFile(v.enabled, b) ==> FilePairPlanned(v, d1, a, d2, b, rep)
  }

  ghost predicate LinksCovered(v: View, rep: nat) {
    AnchorPlanned(v) && forall strategy: Strategy, cls: NameClass :: !strategy.UnknownStrategy? ==> LinkPlanned(v, strategy, cls, rep)
  }

  ghost predicate GroupsCovered(v: View, rep: nat) {
    forall size, cls :: 2 <= size <= 4 ==> GroupPlanned(v, size, cls, rep)
  }

  ghost predicate SpecialsCovered(v: View) {
    forall kind :: SpecialAllowed(v.enabled, kind) ==> SpecialPlanned(v, kind, FILE_MODE) && SpecialPlanned(v, kind, DIR_MODE)
  }

  ghost predicate XAttrsCovered(v: View, rep: nat) {
    forall variant, cls :: 0 <= variant < 4 + |v.enabled * {XAttrTrustedCap, XAttrSecurityCap}| ==> XAttrPlanned(v, variant, cls, rep)
  }

  ghost predicate ACLsCovered(v: View, rep: nat) {
    forall flavour, cls :: ACLPlanned(v, flavour, cls, rep)
  }

  ghost predicate TimesCovered(v: View, rep: nat) {
    forall flavour, cls :: TimesPlanned(v, flavour, cls, rep)
  }

  /** Everything the sub-tree is there to show, once in the given repetition. */
  ghost predicate Covered(v: View, t: SubTree, rep: nat) {
    match t
    case Dirs => DirsCovered(v, rep)
    case Files => FilesCovered(v, rep)
    case Symlinks => SymlinksCap in v.enabled ==> LinksCovered(v, rep)
    case Hardlinks => HardlinksCap in v.enabled ==> GroupsCovered(v, rep)
    case Specials => SpecialsCovered(v)
    case XAttrs => XAttrUserCap in v.enabled ==> XAttrsCovered(v, rep)
    case ACLs => ACLCap in v.enabled ==> ACLsCovered(v, rep)
    case Timestamps => TimestampsCap in v.enabled ==> TimesCovered(v, rep)
  }

  /** From pairs of indices to classes on the plan. */
  lemma PairsCover(v: View, t: SubTree, multiplier: int, rep: nat)
    requires PairsShown(v, t, multiplier) && rep < multiplier
    ensures Covered(v, t, rep)
  {
    hide PairsShown, DirPairPlanned, FilePairPlanned, KnownDir, KnownFile, LinkPlanned, AnchorPlanned, GroupPlanned, SpecialPlanned,
      XAttrPlanned, ACLPlanned, TimesPlanned;
    match t
    case Dirs =>
      forall d1, d2, a, b | 0 <= d1 < d2 < 3 && KnownDir(v.enabled, a) && KnownDir(v.enabled, b)
        ensures DirPairPlanned(v, d1, a, d2, b, rep) { DirPairs(v, multiplier, d1, a, d2, b, rep); }
    case Files =>
      forall d1, d2, a, b | 0 <= d1 < d2 < 5 && KnownFile(v.enabled, a) && KnownFile(v.enabled, b)
        ensures FilePairPlanned(v, d1, a, d2, b, rep) { FilePairs(v, multiplier, d1, a, d2, b, rep); }
    case Symlinks =>
      if SymlinksCap in v.enabled {
        LinksPlanned(v, multiplier, Absolute, Basic, rep);
        forall strategy: Strategy, cls: NameClass | !strategy.UnknownStrategy? ensures LinkPlanned(v, strategy, cls, rep) {
          LinksPlanned(v, multiplier, strategy, cls, rep);
        }
      }
    case Hardlinks =>
      if HardlinksCap in v.enabled {
        forall size, cls | 2 <= size <= 4 ensures GroupPlanned(v, size, cls, rep) { GroupsPlanned(v, multiplier, size, cls, rep); }
      }
    case Specials =>
      forall kind | SpecialAllowed(v.enabled, kind) ensures SpecialPlanned(v, kind, FILE_MODE) && SpecialPlanned(v, kind, DIR_MODE) {
        SpecialsPlanned(v, multiplier, kind, FILE_MODE, rep);
        SpecialsPlanned(v, multiplier, kind, DIR_MODE, rep);
      }
    case XAttrs =>
      if XAttrUserCap in v.enabled {
        forall variant, cls | 0 <= variant < 4 + |v.enabled * {XAttrTrustedCap, XAttrSecurityCap}| ensures XAttrPlanned(v, variant, cls, rep) {
          XAttrsPlanned(v, multiplier, variant, cls, rep);
        }
      }
    case ACLs =>
      if ACLCap in v.enabled {
        forall flavour, cls ensures ACLPlanned(v, flavour, cls, rep) { ACLsPlanned(v, multiplier, flavour, cls, rep); }
      }
    case Timestamps =>
      if TimestampsCap in v.enabled {
        forall flavour, cls ensures TimesPlanned(v, flavour, cls, rep) { TimestampsPlanned(v, multiplier, flavour, cls, rep); }
      }
  }
}
