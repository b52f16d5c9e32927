/**
  coverage_content.go: the deterministic content of coverage files. The FNV hash behind
  coverageDeterministicSeed is the parameter `hash`; nothing below depends on its values.
 */
module CoverageContent {
  import opened Wrappers
  import opened PlanSpec
  import opened ContentPatterns

  const TWO_64 := 0x1_0000_0000_0000_0000

  /** coverageDeterministicSeed, and the cell ids it mixes in. */
  type Hash = (string, bv64) -> nat

  datatype ContentClass = PlainClass | DenseRandomClass | SparseHolesClass | RepeatedBlocksClass | PartialRangeOverwriteClass

  datatype SizeClass = Zero | One | Tiny | BelowChunk | ExactChunk | AboveChunk | TwoChunksPlusTail

  function SizeBytes(c: SizeClass): nat {
    match c
    case Zero => 0
    case One => 1
    case Tiny => 16
    case BelowChunk => CHUNK - 1
    case ExactChunk => CHUNK
    case AboveChunk => CHUNK + 1
    case TwoChunksPlusTail => 2 * CHUNK + 7
  }

  // ---------------------------------------------------------------- byte streams

  /** One step of the 64-bit linear congruential stream. */
  function Lcg(stream: nat): (next: nat)
    ensures next < TWO_64
  {
    (stream * 6364136223846793005 + 1442695040888963407) % TWO_64
  }

  function LcgAt(stream: nat, n: nat): nat {
    if n == 0 then stream else Lcg(LcgAt(stream, n - 1))
  }

  /** byte(stream >> 56) */
  function TopByte(stream: nat): Byte
    requires stream < TWO_64
  {
    stream / 0x100_0000_0000_0000
  }

  function StreamByte(stream: nat, i: nat): Byte {
    TopByte(Lcg(LcgAt(stream, i)))
  }

  /** The loop shared by coveragePlainData and coverageRepeatedBlock. */
  method FillFromStream(n: nat, start: nat) returns (data: seq<Byte>)
    ensures |data| == n && forall i :: 0 <= i < n ==> data[i] == StreamByte(start, i)
  {
    data := [];
    var stream := start;
    for i := 0 to n
      invariant |data| == i && stream == LcgAt(start, i)
      invariant forall j :: 0 <= j < i ==> data[j] == StreamByte(start, j)
    {
      stream := Lcg(stream);
      data := data + [TopByte(stream)];
    }
  }

  /** Plain data of a cell: the leading bytes of its stream. */
  predicate IsPlain(hash: Hash, size: int, cellID: bv64, data: seq<Byte>) {
    |data| == Max(0, size) && forall i :: 0 <= i < |data| ==> data[i] == StreamByte(hash("plain", cellID), i)
  }

  /** coveragePlainData: as long as its size class says, and a function of size and cell. */
  method PlainData(hash: Hash, size: int, cellID: bv64) returns (data: seq<Byte>)
    ensures IsPlain(hash, size, cellID, data)
  {
    if size <= 0 { return []; }
    data := FillFromStream(size, hash("plain", cellID));
  }

  /** One chunk, or the whole of a shorter file. */
  function BlockLength(size: int): (length: nat)
    ensures 0 < length <= CHUNK
  {
    if 0 < size < CHUNK then size else CHUNK
  }

  method RepeatedBlock(hash: Hash, size: int, cellID: bv64) returns (block: seq<Byte>)
    ensures |block| == BlockLength(size)
    ensures forall i :: 0 <= i < |block| ==> block[i] == StreamByte(hash("repeated-block", cellID), i)
  {
    var blockLen := CHUNK;
    if 0 < size < blockLen {
      blockLen := size;
    }
    block := FillFromStream(blockLen, hash("repeated-block", cellID));
  }

  // ---------------------------------------------------------------- segments

  function SegmentCap(size: int): int {
    if size > SEGMENT_MAX then SEGMENT_MAX else size
  }

  /** coverageSparseSegmentLength: always leaves a hole when there is room for one. */
  function SparseSegmentLength(hash: Hash, size: int, cellID: bv64): (length: int)
    ensures size > 0 ==> 0 < length <= size && (length == size <==> size == 1)
  {
    if size <= 0 then 0
    else if size == 1 then 1
    else
      var maxLength := SegmentCap(size - 1);
      var pick := hash("sparse-length", cellID) % maxLength + 1;
      if pick > maxLength then maxLength else pick
  }

  /** coveragePartialSegmentLength */
  function PartialSegmentLength(hash: Hash, size: int, cellID: bv64, tag: string): (length: int)
    ensures size > 0 ==> 0 < length <= size
  {
    if size <= 0 then 0
    else
      var maxLength := SegmentCap(size);
      var pick := hash(tag, cellID) % maxLength + 1;
      if pick > maxLength then maxLength else if pick > size then size else pick
  }

  /** coverageDeterministicOffset: a segment that fits stays inside. */
  function DeterministicOffset(hash: Hash, size: int, length: int, cellID: bv64): (offset: int)
    ensures 0 < length <= size ==> 0 <= offset && offset + length <= size
  {
    if size <= 0 || length <= 0 || length >= size then 0
    else hash("offset", cellID) % (size - length + 1)
  }

  lemma SmallRemainder(a: nat, n: nat)
    requires a < n
    ensures a % n == a
  {
  }

  /** Every length a hole leaves room for is chosen for some hash. */
  lemma SparseLengthReached(size: int, length: int, cellID: bv64) returns (hash: Hash)
    requires size > 1 && 1 <= length <= SegmentCap(size - 1)
    ensures SparseSegmentLength(hash, size, cellID) == length
  {
    hash := (_, _) => if length > 0 then (length - 1) as nat else 0;
    SmallRemainder(length - 1, SegmentCap(size - 1));
  }

  lemma PartialLengthReached(size: int, length: int, cellID: bv64, tag: string) returns (hash: Hash)
    requires size > 0 && 1 <= length <= SegmentCap(size)
    ensures PartialSegmentLength(hash, size, cellID, tag) == length
  {
    hash := (_, _) => if length > 0 then (length - 1) as nat else 0;
    SmallRemainder(length - 1, SegmentCap(size));
  }

  /** Every place a segment fits is chosen for some hash. */
  lemma OffsetReached(size: int, length: int, offset: int, cellID: bv64) returns (hash: Hash)
    requires 0 < length <= size && 0 <= offset <= size - length
    ensures DeterministicOffset(hash, size, length, cellID) == offset
  {
    hash := (_, _) => if offset > 0 then offset as nat else 0;
    SmallRemainder(offset, size - length + 1);
  }

  function PartialExtent(hash: Hash, size: int, cellID: bv64, offsetID: bv64, lengthLabel: string, seedLabel: string): Extent {
    var length := PartialSegmentLength(hash, size, cellID, lengthLabel);
    Extent(DeterministicOffset(hash, size, length, offsetID), length, hash(seedLabel, cellID))
  }

  /** The content pattern of a class that has one. */
  function PatternFor(c: ContentClass): Pattern {
    match c
    case SparseHolesClass => SparseHoles
    case RepeatedBlocksClass => RepeatedBlocks
    case PartialRangeOverwriteClass => PartialRangeOverwrite
    case _ => DenseRandom
  }

  /** The seed of the base stream, where there is one. */
  function SeedFor(hash: Hash, c: ContentClass, cellID: bv64): int {
    match c
    case DenseRandomClass => hash("dense-random", cellID)
    case PartialRangeOverwriteClass => hash("partial-base", cellID)
    case _ => 0
  }

  /** The extents of a class: one island, or two updates at offsets of their own. */
  function ExtentsFor(hash: Hash, c: ContentClass, size: int, cellID: bv64): seq<Extent> {
    if size == 0 then []
    else match c
      case SparseHolesClass =>
        var length := SparseSegmentLength(hash, size, cellID);
        [Extent(DeterministicOffset(hash, size, length, cellID), length, hash("sparse-extent", cellID))]
      case PartialRangeOverwriteClass =>
        [PartialExtent(hash, size, cellID, cellID + 1, "partial-length-0", "partial-extent-0"),
         PartialExtent(hash, size, cellID, cellID + 2, "partial-length-1", "partial-extent-1")]
      case _ => []
  }

  /**
    coverageContentFor: for every class, size, cell and hash the planned content fits its file,
    predicts the bytes written and is sparse exactly when holes fit. None is the plain class.
   */
  method ContentFor(hash: Hash, c: ContentClass, sizeClass: SizeClass, cellID: bv64) returns (content: Option<Content>)
    ensures content.None? <==> c.PlainClass?
    ensures content.Some? ==> GoodContent(content.value) && content.value.logicalSize == SizeBytes(sizeClass)
    ensures content.Some? ==> content.value.pattern == PatternFor(c)
    ensures content.Some? ==>
      var size := SizeBytes(sizeClass);
      && content.value.seed == SeedFor(hash, c, cellID)
      && content.value.sparseExtents == (if c.SparseHolesClass? then ExtentsFor(hash, c, size, cellID) else [])
      && content.value.overwriteExtents == (if c.PartialRangeOverwriteClass? then ExtentsFor(hash, c, size, cellID) else [])
      && |content.value.repeatedBlock| == (if c.RepeatedBlocksClass? then BlockLength(size) else 0)
      && (forall i :: 0 <= i < |content.value.repeatedBlock| ==>
            c.RepeatedBlocksClass? && content.value.repeatedBlock[i] == StreamByte(hash("repeated-block", cellID), i))
    ensures content.Some? ==> (content.value.expectedSparse <==> c.SparseHolesClass? && !sizeClass.Zero? && !sizeClass.One?)
  {
    var size := SizeBytes(sizeClass);
    match c {
      case PlainClass =>
        return None;
      case DenseRandomClass =>
        return Some(Content(DenseRandom, size, size, false, hash("dense-random", cellID), [], [], []));
      case SparseHolesClass =>
        if size == 0 {
          return Some(Content(SparseHoles, 0, 0, false, 0, [], [], []));
        }
        var length := SparseSegmentLength(hash, size, cellID);
        var e := Extent(DeterministicOffset(hash, size, length, cellID), length, hash("sparse-extent", cellID));
        OneLength(e);
        return Some(Content(SparseHoles, size, length, size > length, 0, [], [e], []));
      case RepeatedBlocksClass =>
        var block := RepeatedBlock(hash, size, cellID);
        return Some(Content(RepeatedBlocks, size, size, false, 0, block, [], []));
      case PartialRangeOverwriteClass =>
        var seed := hash("partial-base", cellID);
        if size == 0 {
          return Some(Content(PartialRangeOverwrite, 0, 0, false, seed, [], [], []));
        }
        var a := PartialExtent(hash, size, cellID, cellID + 1, "partial-length-0", "partial-extent-0");
        var b := PartialExtent(hash, size, cellID, cellID + 2, "partial-length-1", "partial-extent-1");
        TwoLengths(a, b);
        return Some(Content(PartialRangeOverwrite, size, size + a.length + b.length, false, seed, [], [], [a, b]));
    }
  }
}
