/**
  coverage_enumerator.go: the class tables, the metadata and names of coverage plans, and what
  their entries may hold. Hash values are arbitrary: `Environment` holds the cell ids, the
  streams, the content hash and the attribute values as unknown functions.
 */
module CoveragePlan {
  import opened Wrappers
  import opened Strings
  import opened Paths
  import opened FileSystem
  import opened PlanSpec
  import opened ContentPatterns
  import opened CoverageContent
  import opened CoverageNaming

  datatype Capability =
    | HardlinksCap | SymlinksCap
    | FIFOCap | SocketCap | CharDeviceCap | BlockDeviceCap
    | OwnershipCap | TimestampsCap
    | XAttrUserCap | XAttrTrustedCap | XAttrSecurityCap | ACLCap
    | NonDefaultOwnershipCap

  datatype SubTree = Dirs | Files | Symlinks | Hardlinks | Specials | XAttrs | ACLs | Timestamps

  /**
    What hashing and the process supply. A cell id depends on the sub-tree, the test case and the
    repetition; attribute values on the sub-tree, the variant and the cell.
   */
  datatype Environment = Environment(
    cell: (SubTree, seq<int>, nat) -> CellID,
    seedOf: CellID -> nat,
    hash: Hash,
    xattrs: (SubTree, int, CellID) -> map<string, seq<Byte>>,
    uid: nat,
    gid: nat)

  datatype CoverageError = PathCollision(path: Path)

  // ---------------------------------------------------------------- class tables

  function ModeForFile(i: nat): nat {
    match i
    case 0 => 0x1a4
    case 1 => 0x1ed
    case 2 => 0x9e8
    case 3 => 0x5e8
    case 4 => 0x3e8
    case 5 => 0xde8
    case _ => 0x1a4
  }

  function ModeForDir(i: nat): nat {
    if i == 0 || i > 5 then DIR_MODE else ModeForFile(i)
  }

  const DIR_MODE := 0x1ed
  const FILE_MODE := 0x1a4
  const MODE_CLASSES := 6

  function NameClassAt(i: nat): NameClass {
    match i
    case 0 => Basic
    case 1 => LeadingSpaces
    case 2 => TrailingSpaces
    case 3 => LeadingDots
    case 4 => NewlineTab
    case 5 => ControlChars
    case 6 => InvalidUTF8
    case 7 => UnicodeNormalization
    case _ => NearMaxBytes
  }

  const NAME_CLASSES := 9

  function ContentClassAt(i: nat): ContentClass {
    match i
    case 0 => PlainClass
    case 1 => DenseRandomClass
    case 2 => SparseHolesClass
    case 3 => RepeatedBlocksClass
    case _ => PartialRangeOverwriteClass
  }

  const CONTENT_CLASSES := 5

  function SizeClassAt(i: nat): SizeClass {
    match i
    case 0 => Zero
    case 1 => One
    case 2 => Tiny
    case 3 => BelowChunk
    case 4 => ExactChunk
    case 5 => AboveChunk
    case _ => TwoChunksPlusTail
  }

  const SIZE_CLASSES := 7

  function StrategyAt(i: nat): Strategy {
    match i
    case 0 => Absolute
    case 1 => Relative
    case 2 => Dangling
    case 3 => SelfReferential
    case 4 => Chained
    case _ => Cycle
  }

  const STRATEGIES := 6
  const GROUP_SIZES := [2, 3, 4]

  datatype MetadataClass = NoMetadata | OwnershipOnly | TimestampsOnly | FullMetadata

  /** coverageEnabledMetadataValues */
  function MetadataValues(enabled: set<Capability>): (values: seq<MetadataClass>)
    ensures |values| >= 1
  {
    [NoMetadata]
    + (if OwnershipCap in enabled then [OwnershipOnly] else [])
    + (if TimestampsCap in enabled then [TimestampsOnly] else [])
    + (if {OwnershipCap, TimestampsCap, XAttrUserCap, ACLCap} <= enabled then [FullMetadata] else [])
  }

  const EPOCH := 1_700_000_000_123_456_789
  const HOUR := 3_600_000_000_000
  const YEAR := 365 * 24 * HOUR

  /** coverageTimestampPair, in nanoseconds */
  function TimestampPair(variant: nat): (int, int) {
    match variant
    case 0 => (0, 0)
    case 1 => (EPOCH - YEAR, EPOCH - YEAR)
    case 2 => (EPOCH + YEAR, EPOCH + YEAR)
    case 3 => (EPOCH, EPOCH + HOUR)
    case 4 => (EPOCH + HOUR, EPOCH)
    case _ => (EPOCH, EPOCH)
  }

  const PAST := 1
  const TIMESTAMP_VARIANTS := 5

  /** coverageEffectiveOwnership */
  function EffectiveOwnership(env: Environment, enabled: set<Capability>, ownerIndex: nat): (int, int) {
    if NonDefaultOwnershipCap !in enabled then (env.uid, env.gid)
    else if ownerIndex % 3 == 0 then (0, 0) else if ownerIndex % 3 == 1 then (1000, 1000) else (65534, 65534)
  }

  /** coverageMetadataFor */
  function MetadataFor(env: Environment, enabled: set<Capability>, cls: MetadataClass, ownerIndex: nat, variant: nat,
                       xattrs: map<string, seq<Byte>>, acl: seq<string>): Metadata {
    var owned := (cls.OwnershipOnly? || cls.FullMetadata?) && OwnershipCap in enabled;
    Metadata(
      if owned then Some(EffectiveOwnership(env, enabled, ownerIndex)) else None,
      if TimestampsCap in enabled then Some(TimestampPair(variant)) else None,
      if cls.FullMetadata? && XAttrUserCap in enabled && xattrs != map[] then Some(xattrs) else None,
      if cls.FullMetadata? && ACLCap in enabled && acl != [] then Some(acl) else None)
  }

  /** ensureDeterministicTimestamps */
  function Stamped(enabled: set<Capability>, metadata: Metadata): Metadata {
    if TimestampsCap in enabled && metadata.times.None? then metadata.(times := Some((EPOCH, EPOCH))) else metadata
  }

  const DIR_ACL := ["u::rwx", "g::r-x", "o::---"]
  const FILE_ACL := ["u::rw-", "g::r--", "o::---"]

  /** coverageACLEntriesFor */
  function ACLFor(variant: nat): seq<string> {
    match variant
    case 0 => FILE_ACL
    case 1 => FILE_ACL + ["u:1000:r--", "g:1000:r--", "m::r--"]
    case 2 => DIR_ACL + ["default:u::rwx", "default:g::r-x", "default:o::---"]
    case _ => FILE_ACL
  }

  const ACL_VARIANTS := 3
  const DEFAULT_ON_DIR := 2

  /** Every ACL list of a coverage plan. */
  const COVERAGE_ACLS := [DIR_ACL, FILE_ACL, ACLFor(1), ACLFor(DEFAULT_ON_DIR)]

  /** A special file of the plan: devices are 1, 3. */
  function SpecialFor(enabled: set<Capability>, p: Path, mode: nat, kind: SpecialType): Entry {
    var number := if IsDevice(kind) then (1, 3) else (0, 0);
    SpecialEntry(p, mode, kind, number.0, number.1, Stamped(enabled, NO_METADATA))
  }

  // ---------------------------------------------------------------- what entries are allowed

  /** Metadata only of enabled kinds; times exactly when the capability is there. */
  predicate GatedMetadata(enabled: set<Capability>, metadata: Metadata) {
    && (metadata.times.Some? <==> TimestampsCap in enabled)
    && (metadata.owner.Some? ==> OwnershipCap in enabled && metadata.owner.value.0 >= 0 && metadata.owner.value.1 >= 0)
    && (metadata.xattrs.Some? ==> XAttrUserCap in enabled)
    && (metadata.acl.Some? ==> ACLCap in enabled && metadata.acl.value in COVERAGE_ACLS)
  }

  /** Metadata of anything but a directory: no default ACL. */
  predicate FileMetadata(enabled: set<Capability>, metadata: Metadata) {
    GatedMetadata(enabled, metadata) && metadata.acl != Some(ACLFor(DEFAULT_ON_DIR))
  }

  predicate SpecialAllowed(enabled: set<Capability>, kind: SpecialType) {
    match kind
    case FIFO => FIFOCap in enabled
    case Socket => SocketCap in enabled
    case CharDevice => CharDeviceCap in enabled
    case BlockDevice => BlockDeviceCap in enabled
  }

  /** The entry uses only what is enabled, and its content is sound. */
  predicate Allowed(enabled: set<Capability>, e: Entry) {
    match e
    case DirEntry(_, _, metadata) => GatedMetadata(enabled, metadata)
    case FileEntry(_, _, _, content, metadata) =>
      FileMetadata(enabled, metadata) && (content.Some? ==> GoodContent(content.value))
    case SymlinkEntry(_, _, metadata) => SymlinksCap in enabled && FileMetadata(enabled, metadata)
    case HardlinkEntry(_, _) => HardlinksCap in enabled
    case SpecialEntry(_, _, kind, major, minor, metadata) =>
      SpecialAllowed(enabled, kind) && major >= 0 && minor >= 0 && FileMetadata(enabled, metadata)
  }

  // ---------------------------------------------------------------- names inside the plan

  function RootName(t: SubTree): string {
    match t
    case Dirs => "dirs"
    case Files => "files"
    case Symlinks => "symlinks"
    case Hardlinks => "hardlinks"
    case Specials => "special"
    case XAttrs => "xattr-variants"
    case ACLs => "acl-variants"
    case Timestamps => "timestamp-variants"
  }

  function KindName(t: SubTree): string {
    match t
    case Dirs => "dirs"
    case Files => "files"
    case Symlinks => "symlinks"
    case Hardlinks => "hardlinks"
    case Specials => "special"
    case XAttrs => "xattr"
    case ACLs => "acl"
    case Timestamps => "ts"
  }

  /** The root directories by name. */
  lemma RootNames(t: SubTree)
    ensures RootName(t) == "dirs" <==> t.Dirs?
    ensures RootName(t) == "files" <==> t.Files?
    ensures RootName(t) == "symlinks" <==> t.Symlinks?
    ensures RootName(t) == "hardlinks" <==> t.Hardlinks?
    ensures RootName(t) == "special" <==> t.Specials?
    ensures RootName(t) == "xattr-variants" <==> t.XAttrs?
    ensures RootName(t) == "acl-variants" <==> t.ACLs?
    ensures RootName(t) == "timestamp-variants" <==> t.Timestamps?
  {
    var name := RootName(t);
    assert |name| > 0;
    assert name[0] == 'h' <==> t.Hardlinks?;
  }

  lemma RootNamesDiffer(t: SubTree, u: SubTree)
    requires RootName(t) == RootName(u)
    ensures t == u
  {
    assert |RootName(t)| == |RootName(u)|;
  }

  lemma RootNameValid(t: SubTree)
    ensures ValidName(RootName(t)) && |RootName(t)| <= NAME_MAX_BYTES
  {
  }

  /** fmt.Sprintf("cell-%s-%05d", kind, index) */
  function CellName(t: SubTree, index: nat): string {
    "cell-" + KindName(t) + "-" + ZeroPad(Decimal(index), 5)
  }

  lemma CellNamesDiffer(t: SubTree, i: nat, j: nat)
    requires CellName(t, i) == CellName(t, j)
    ensures i == j
  {
    hide ZeroPad, Decimal;
    var n := |"cell-" + KindName(t) + "-"|;
    assert CellName(t, i)[n..] == ZeroPad(Decimal(i), 5);
    assert CellName(t, j)[n..] == ZeroPad(Decimal(j), 5);
    PaddedDecimalInjective(i, j, 5);
  }

  lemma CellNameValid(t: SubTree, index: nat)
    ensures ValidName(CellName(t, index))
    ensures CellName(t, index)[0] == 'c'
  {
    assert '/' !in KindName(t) && NUL !in KindName(t);
    var digits := ZeroPad(Decimal(index), 5);
    hide KindName, ZeroPad, Decimal;
    var name := CellName(t, index);
    assert name[0] == 'c';
    forall c | c in name ensures c != '/' && c != NUL {
      if c in digits { assert IsDigit(c); }
    }
  }

  /** fmt.Sprintf("%06d-%s", index, char) */
  function SpecialName(index: nat, kind: SpecialType): string {
    ZeroPad(Decimal(index), 6) + "-" + SpecialChar(kind)
  }

  function SpecialChar(kind: SpecialType): string {
    match kind
    case FIFO => "f"
    case Socket => "s"
    case CharDevice => "c"
    case BlockDevice => "b"
  }

  /** A special file's name shows its type. */
  lemma SpecialChars(kind: SpecialType)
    ensures SpecialChar(kind) == "f" <==> kind.FIFO?
    ensures SpecialChar(kind) == "s" <==> kind.Socket?
    ensures SpecialChar(kind) == "c" <==> kind.CharDevice?
    ensures SpecialChar(kind) == "b" <==> kind.BlockDevice?
  {
    assert SpecialChar(kind)[0] in {'f', 's', 'c', 'b'};
  }

  lemma SpecialNamesDiffer(i: nat, a: SpecialType, j: nat, b: SpecialType)
    requires SpecialName(i, a) == SpecialName(j, b)
    ensures i == j
  {
    hide ZeroPad, Decimal;
    var s, t := SpecialName(i, a), SpecialName(j, b);
    assert |SpecialChar(a)| == 1 && |SpecialChar(b)| == 1;
    assert s[..|s| - 2] == ZeroPad(Decimal(i), 6);
    assert t[..|t| - 2] == ZeroPad(Decimal(j), 6);
    PaddedDecimalInjective(i, j, 6);
  }

  lemma SpecialNameValid(i: nat, kind: SpecialType)
    ensures ValidName(SpecialName(i, kind))
  {
    var digits := ZeroPad(Decimal(i), 6);
    hide ZeroPad, Decimal;
    var name := SpecialName(i, kind);
    assert |name| >= 3 && name[|name| - 2] == '-';
    forall c | c in name ensures c != '/' && c != NUL {
      if c in digits { assert IsDigit(c); }
    }
  }
}
