/**
  content_patterns.go and coverage_content.go: what a planned file's bytes are, byte by byte,
  and the chunked loops that write them. math/rand is the parameter `rnd`: `rnd(seed, i)` is the
  i-th byte of the stream a seed starts, however the stream is read in chunks.
 */
module ContentPatterns {
  import opened Wrappers
  import opened Sorting
  import opened Draws
  import opened PlanSpec

  const CHUNK := 65536
  const SEGMENT_MAX := 1048576
  const OVERWRITE_COUNT := 2

  type Random = (int, nat) -> Byte

  // ---------------------------------------------------------------- the per-byte specification

  predicate Covers(e: Extent, p: nat) {
    e.offset <= p < e.offset + e.length
  }

  /** The byte of the last extent covering `p`, or `otherwise`. */
  function LastByte(rnd: Random, extents: seq<Extent>, p: nat, otherwise: Byte): Byte {
    if extents == [] then otherwise
    else
      var last := extents[|extents| - 1];
      if Covers(last, p) then rnd(last.seed, p - last.offset)
      else LastByte(rnd, extents[..|extents| - 1], p, otherwise)
  }

  /** The content's base: one random stream, holes, or the repeated block chunk by chunk. */
  function BaseByte(rnd: Random, content: Content, p: nat): Byte {
    match content.pattern
    case DenseRandom => rnd(content.seed, p)
    case SparseHoles => 0
    case RepeatedBlocks => if content.repeatedBlock == [] then 0 else content.repeatedBlock[(p % CHUNK) % |content.repeatedBlock|]
    case PartialRangeOverwrite => rnd(content.seed, p)
  }

  /** The extents a pattern writes after its base. */
  function WrittenExtents(content: Content): seq<Extent> {
    match content.pattern
    case DenseRandom => []
    case SparseHoles => content.sparseExtents
    case RepeatedBlocks => []
    case PartialRangeOverwrite => content.overwriteExtents
  }

  function ByteAt(rnd: Random, content: Content, p: nat): Byte {
    LastByte(rnd, WrittenExtents(content), p, BaseByte(rnd, content, p))
  }

  predicate Inside(e: Extent, size: int) {
    0 <= e.offset && 0 < e.length && e.offset + e.length <= size
  }

  /** Content as planners and manifests hand it over. */
  predicate ValidContent(content: Content) {
    && content.logicalSize >= 0
    && (forall i :: 0 <= i < |content.sparseExtents| ==> Inside(content.sparseExtents[i], content.logicalSize))
    && (forall i :: 0 <= i < |content.overwriteExtents| ==> Inside(content.overwriteExtents[i], content.logicalSize))
    && (content.pattern == RepeatedBlocks && content.logicalSize > 0 ==> content.repeatedBlock != [])
  }

  /** The whole file. */
  function Bytes(rnd: Random, content: Content): seq<Byte>
    requires content.logicalSize >= 0
  {
    seq(content.logicalSize, p requires 0 <= p => ByteAt(rnd, content, p))
  }

  function SumLengths(extents: seq<Extent>): int {
    if extents == [] then 0 else extents[|extents| - 1].length + SumLengths(extents[..|extents| - 1])
  }

  /** How many bytes the writer hands to the file. */
  function BytesWritten(content: Content): int {
    (if content.pattern == SparseHoles then 0 else content.logicalSize) + SumLengths(WrittenExtents(content))
  }

  // ---------------------------------------------------------------- files

  /** What a reader sees at `p`: the stored byte, and zero past the end. */
  function ReadByte(data: seq<Byte>, p: nat): Byte {
    if p < |data| then data[p] else 0
  }

  function Max(a: int, b: int): int {
    if a < b then b else a
  }

  /** pwrite(2): the bytes at an offset, zeros in a gap before it. */
  function Overlay(data: seq<Byte>, offset: nat, bytes: seq<Byte>): (r: seq<Byte>)
    requires bytes != []
    ensures |r| == Max(|data|, offset + |bytes|)
    ensures forall p: nat :: ReadByte(r, p) == if offset <= p < offset + |bytes| then bytes[p - offset] else ReadByte(data, p)
  {
    seq(Max(|data|, offset + |bytes|), p requires 0 <= p =>
      if offset <= p < offset + |bytes| then bytes[p - offset] else ReadByte(data, p))
  }

  class OutputFile {
    var data: seq<Byte>
    var written: nat

    constructor ()
      ensures data == [] && written == 0
    {
      data, written := [], 0;
    }

    method WriteAt(bytes: seq<Byte>, offset: nat)
      requires bytes != []
      modifies this
      ensures data == Overlay(old(data), offset, bytes) && written == old(written) + |bytes|
    {
      data := Overlay(data, offset, bytes);
      written := written + |bytes|;
    }

    method Truncate(size: nat)
      modifies this`data
      ensures |data| == size
      ensures forall p :: 0 <= p < size ==> data[p] == ReadByte(old(data), p)
    {
      data := if size <= |data| then data[..size] else data + Zeros(size - |data|);
    }
  }

  /** `after` is `before` with `n` bytes of the seed's stream written at `offset`. */
  ghost predicate ShowsRun(rnd: Random, before: seq<Byte>, after: seq<Byte>, offset: nat, n: nat, seed: int) {
    && |after| == (if n == 0 then |before| else Max(|before|, offset + n))
    && forall p: nat :: ReadByte(after, p) == if offset <= p < offset + n then rnd(seed, p - offset) else ReadByte(before, p)
  }

  lemma NextChunk(rnd: Random, before: seq<Byte>, mid: seq<Byte>, offset: nat, n: nat, seed: int, chunk: seq<Byte>)
    requires ShowsRun(rnd, before, mid, offset, n, seed) && chunk != []
    requires forall i :: 0 <= i < |chunk| ==> chunk[i] == rnd(seed, n + i)
    ensures ShowsRun(rnd, before, Overlay(mid, offset + n, chunk), offset, n + |chunk|, seed)
  {
    var after := Overlay(mid, offset + n, chunk);
    forall p: nat
      ensures ReadByte(after, p) == if offset <= p < offset + n + |chunk| then rnd(seed, p - offset) else ReadByte(before, p)
    {
      if offset + n <= p < offset + n + |chunk| {
        assert chunk[p - (offset + n)] == rnd(seed, n + (p - (offset + n)));
      }
    }
  }

  /** writeRandomContentAt: the chunks make up one run of the stream. */
  method WriteRandomContentAt(rnd: Random, f: OutputFile, offset: nat, length: nat, seed: int)
    modifies f
    ensures ShowsRun(rnd, old(f.data), f.data, offset, length, seed)
    ensures f.written == old(f.written) + length
  {
    if length == 0 { return; }
    var buffer := if length < CHUNK then length else CHUNK;
    var position := 0;
    while position < length
      invariant 0 <= position <= length
      invariant ShowsRun(rnd, old(f.data), f.data, offset, position, seed)
      invariant f.written == old(f.written) + position
    {
      hide ShowsRun, Overlay;
      var chunkLen := if length - position < buffer then length - position else buffer;
      var chunk := seq(chunkLen, i requires 0 <= i => rnd(seed, position + i));
      NextChunk(rnd, old(f.data), f.data, offset, position, seed, chunk);
      f.WriteAt(chunk, offset + position);
      position := position + chunkLen;
    }
  }

  function RepeatedChunk(block: seq<Byte>): (chunk: seq<Byte>)
    requires block != []
    ensures |chunk| == CHUNK && forall i :: 0 <= i < CHUNK ==> chunk[i] == block[i % |block|]
  {
    seq(CHUNK, i requires 0 <= i => block[i % |block|])
  }

  function RepeatedByte(block: seq<Byte>, p: nat): Byte
    requires block != []
  {
    block[(p % CHUNK) % |block|]
  }

  /** The first bytes of a repeated file. */
  ghost predicate ShowsBlocks(block: seq<Byte>, data: seq<Byte>)
    requires block != []
  {
    forall p :: 0 <= p < |data| ==> data[p] == RepeatedByte(block, p)
  }

  lemma NextBlock(block: seq<Byte>, data: seq<Byte>, chunks: nat, n: nat)
    requires block != [] && ShowsBlocks(block, data) && |data| == chunks * CHUNK && 0 < n <= CHUNK
    ensures var after := Overlay(data, |data|, RepeatedChunk(block)[..n]);
            |after| == |data| + n && ShowsBlocks(block, after)
  {
    var chunk := RepeatedChunk(block)[..n];
    var after := Overlay(data, |data|, chunk);
    forall p | 0 <= p < |after| ensures after[p] == RepeatedByte(block, p) {
      assert after[p] == ReadByte(after, p);
      if p >= |data| {
        ChunkRestarts(chunks, p - |data|);
      }
    }
  }

  /** writeRepeatedContent: every chunk restarts the block. */
  method WriteRepeatedContent(f: OutputFile, logicalSize: nat, block: seq<Byte>) returns (ok: bool)
    requires f.data == []
    modifies f
    ensures ok <==> logicalSize == 0 || block != []
    ensures ok ==> |f.data| == logicalSize && f.written == old(f.written) + logicalSize
    ensures ok ==> block != [] ==> ShowsBlocks(block, f.data)
    ensures !ok ==> f.data == old(f.data) && f.written == old(f.written)
  {
    if logicalSize == 0 { return true; }
    if |block| == 0 { return false; }
    var chunk := RepeatedChunk(block);
    var offset := 0;
    ghost var chunks: nat := 0;
    while offset < logicalSize
      invariant 0 <= offset <= logicalSize && |f.data| == offset
      invariant offset == chunks * CHUNK || offset == logicalSize
      invariant f.written == old(f.written) + offset
      invariant ShowsBlocks(block, f.data)
    {
      hide ShowsBlocks, Overlay;
      var chunkLen := if logicalSize - offset < |chunk| then logicalSize - offset else |chunk|;
      NextBlock(block, f.data, chunks, chunkLen);
      f.WriteAt(chunk[..chunkLen], offset);
      offset := offset + chunkLen;
      chunks := chunks + 1;
    }
    return true;
  }

  lemma ChunkRestarts(chunks: nat, i: nat)
    requires i < CHUNK
    ensures (chunks * CHUNK + i) % CHUNK == i
  {
  }

  /** `after` is `before` with the extents written one after another. */
  ghost predicate ShowsExtents(rnd: Random, before: seq<Byte>, after: seq<Byte>, extents: seq<Extent>, size: nat) {
    && |before| <= |after| <= size
    && forall p: nat :: ReadByte(after, p) == LastByte(rnd, extents, p, ReadByte(before, p))
  }

  lemma NextExtent(rnd: Random, before: seq<Byte>, mid: seq<Byte>, after: seq<Byte>, extents: seq<Extent>, e: Extent, size: nat)
    requires ShowsExtents(rnd, before, mid, extents, size) && Inside(e, size)
    requires ShowsRun(rnd, mid, after, e.offset, e.length, e.seed)
    ensures ShowsExtents(rnd, before, after, extents + [e], size)
    ensures SumLengths(extents + [e]) == SumLengths(extents) + e.length
  {
    assert (extents + [e])[..|extents|] == extents;
    forall p: nat ensures ReadByte(after, p) == LastByte(rnd, extents + [e], p, ReadByte(before, p)) {
      assert ReadByte(mid, p) == LastByte(rnd, extents, p, ReadByte(before, p));
    }
  }

  /** The loop over extents: each position shows the last extent that covers it. */
  method WriteExtents(rnd: Random, f: OutputFile, extents: seq<Extent>, size: nat)
    requires forall i :: 0 <= i < |extents| ==> Inside(extents[i], size)
    requires |f.data| <= size
    modifies f
    ensures ShowsExtents(rnd, old(f.data), f.data, extents, size)
    ensures f.written == old(f.written) + SumLengths(extents)
  {
    ghost var start := f.data;
    for i := 0 to |extents|
      invariant ShowsExtents(rnd, start, f.data, extents[..i], size)
      invariant f.written == old(f.written) + SumLengths(extents[..i])
    {
      hide ShowsExtents, ShowsRun, SumLengths;
      var e := extents[i];
      assert Inside(e, size) && extents[..i + 1] == extents[..i] + [e];
      ghost var mid := f.data;
      WriteRandomContentAt(rnd, f, e.offset, e.length, e.seed);
      NextExtent(rnd, start, mid, f.data, extents[..i], e, size);
    }
    assert extents[..|extents|] == extents;
  }

  /** writePlannedFileContent before the final Truncate. */
  method WriteContent(rnd: Random, f: OutputFile, content: Content)
    requires ValidContent(content) && f.data == [] && f.written == 0
    modifies f
    ensures forall p: nat :: p < content.logicalSize ==> ReadByte(f.data, p) == ByteAt(rnd, content, p)
    ensures f.written == BytesWritten(content)
  {
    match content.pattern {
      case DenseRandom =>
        WriteRandomContentAt(rnd, f, 0, content.logicalSize, content.seed);
      case SparseHoles =>
        WriteExtents(rnd, f, content.sparseExtents, content.logicalSize);
      case RepeatedBlocks =>
        var ok := WriteRepeatedContent(f, content.logicalSize, content.repeatedBlock);
      case PartialRangeOverwrite =>
        WriteRandomContentAt(rnd, f, 0, content.logicalSize, content.seed);
        WriteExtents(rnd, f, content.overwriteExtents, content.logicalSize);
    }
  }

  /**
    writePlannedFileContent: the file holds exactly the specified bytes, holes read as zeros,
    and the writer hands over exactly the predicted number of bytes.
   */
  method WritePlannedFileContent(rnd: Random, content: Content) returns (f: OutputFile)
    requires ValidContent(content)
    ensures fresh(f) && f.data == Bytes(rnd, content) && f.written == BytesWritten(content)
  {
    f := new OutputFile();
    WriteContent(rnd, f, content);
    f.Truncate(content.logicalSize);
  }

  // ---------------------------------------------------------------- periodicity of repeated content

  /** The file repeats its block from end to end, ignoring chunk boundaries. */
  predicate GloballyPeriodic(block: seq<Byte>, size: nat)
    requires block != []
  {
    forall p :: 0 <= p < size ==> RepeatedByte(block, p) == block[p % |block|]
  }

  lemma RemainderOfRemainder(p: nat, n: nat, m: nat)
    requires n > 0 && m > 0 && m % n == 0
    ensures (p % m) % n == p % n
  {
    var k, q := m / n, p / m;
    assert m == n * k && p == m * q + p % m;
    assert p == n * (k * q) + p % m;
    ModuloShift(p % m, n, k * q);
  }

  lemma {:induction false} ModuloShift(a: nat, n: nat, k: nat)
    requires n > 0
    ensures (n * k + a) % n == a % n
    decreases k
  {
    if k > 0 {
      ModuloShift(a, n, k - 1);
      assert n * k + a == n * (k - 1) + a + n;
      AddOnce(n * (k - 1) + a, n);
    }
  }

  lemma AddOnce(x: nat, n: nat)
    requires n > 0
    ensures (x + n) % n == x % n
  {
    var q, r := x / n, x % n;
    assert x + n == n * (q + 1) + r;
    QuotientIsUnique(x + n, n, q + 1, r);
  }

  lemma QuotientsOrder(n: nat, q: nat, r: nat, q': nat, r': nat)
    requires r < n && q < q'
    ensures n * q + r < n * q' + r'
  {
    assert n * q' >= n * (q + 1) == n * q + n;
  }

  lemma QuotientIsUnique(x: nat, n: nat, q: nat, r: nat)
    requires n > 0 && x == n * q + r && r < n
    ensures x % n == r
  {
    var q', r' := x / n, x % n;
    assert x == n * q' + r';
    if q < q' {
      QuotientsOrder(n, q, r, q', r');
    } else if q' < q {
      QuotientsOrder(n, q', r', q, r);
    }
  }

  /**
    Every block of length `n` repeats globally over `size` bytes exactly when the file fits one
    chunk or `n` divides the chunk size.
   */
  lemma PeriodicityCondition(n: nat, size: nat)
    requires 0 < n
    ensures (forall block: seq<Byte> :: |block| == n ==> GloballyPeriodic(block, size))
            <==> (size <= CHUNK || CHUNK % n == 0)
  {
    if size <= CHUNK || CHUNK % n == 0 {
      forall block: seq<Byte>, p | |block| == n && 0 <= p < size
        ensures RepeatedByte(block, p) == block[p % |block|]
      {
        if CHUNK % n == 0 { RemainderOfRemainder(p, n, CHUNK); }
      }
    } else {
      // at the second chunk the block restarts, while its period is somewhere in the middle
      var r := CHUNK % n;
      var block: seq<Byte> := seq(n, i => if i == r then 1 else 0);
      assert RepeatedByte(block, CHUNK) == block[0] == 0 && block[CHUNK % |block|] == 1;
      assert |block| == n && !GloballyPeriodic(block, size);
    }
  }

  // ---------------------------------------------------------------- planning content

  /** What both planners promise of the content they plan. */
  predicate GoodContent(content: Content) {
    && ValidContent(content) && |content.repeatedBlock| <= CHUNK
    && content.expectedWrittenBytes == BytesWritten(content)
    && (content.expectedSparse <==> content.pattern == SparseHoles && content.logicalSize > 1)
  }

  /** randomizedSegmentLength */
  method RandomizedSegmentLength(logicalSize: int) returns (length: int)
    ensures logicalSize <= 0 ==> length == 0
    ensures logicalSize > 0 ==> 1 <= length <= logicalSize && length <= SEGMENT_MAX
  {
    if logicalSize <= 0 { return 0; }
    var maxLength := if logicalSize > SEGMENT_MAX then SEGMENT_MAX else logicalSize;
    var k := Intn(maxLength);
    return k + 1;
  }

  /** randomizedOffset: a segment that fits is placed inside the file. */
  method RandomizedOffset(logicalSize: int, length: int) returns (r: Result<int, string>)
    ensures r.Ok? <==> 0 <= length <= logicalSize
    ensures r.Ok? ==> 0 <= r.value && r.value + length <= logicalSize
  {
    if logicalSize < 0 { return Err("logical size must be >= 0"); }
    if length < 0 { return Err("segment length must be >= 0"); }
    if length > logicalSize { return Err("segment length exceeds logical size"); }
    var remaining := logicalSize - length;
    if remaining == 0 { return Ok(0); }
    var k := Intn(remaining + 1);
    return Ok(k);
  }

  predicate YieldsBlock(generated: Option<Result<seq<Byte>, string>>) {
    generated.None? || (generated.value.Ok? && generated.value.value != [])
  }

  /** resolveRepeatedBlock: a configured data generator's output, or random bytes. */
  method ResolveRepeatedBlock(generated: Option<Result<seq<Byte>, string>>, logicalSize: int) returns (r: Result<seq<Byte>, string>)
    ensures r.Ok? <==> YieldsBlock(generated)
    ensures r.Ok? ==> 0 < |r.value| <= CHUNK
    ensures r.Ok? && generated.Some? ==> r.value <= generated.value.value
    ensures r.Ok? && generated.Some? && |generated.value.value| <= CHUNK ==> r.value == generated.value.value
  {
    var block: seq<Byte>;
    if generated.Some? {
      if generated.value.Err? { return Err("failed to generate repeated block data"); }
      block := generated.value.value;
    } else {
      var blockLen := CHUNK;
      if 0 < logicalSize < blockLen {
        blockLen := logicalSize;
      }
      block := RandomBytes(blockLen);
    }
    if |block| == 0 { return Err("repeated block is empty"); }
    if |block| > CHUNK {
      block := block[..CHUNK];
    }
    return Ok(block);
  }

  /** The comparator updates are sorted by. */
  predicate ExtentLeq(a: Extent, b: Extent) {
    a.offset < b.offset || (a.offset == b.offset && a.length <= b.length)
  }

  lemma SortedPair(a: Extent, b: Extent)
    ensures var s := Sort(ExtentLeq, [a, b]);
            (s == [a, b] || s == [b, a]) && ExtentLeq(s[0], s[1]) && SumLengths(s) == a.length + b.length
  {
    assert [a, b][1..] == [b] && [b][1..] == [];
    assert Sort(ExtentLeq, [b]) == [b];
    assert Sort(ExtentLeq, [a, b]) == Insert(ExtentLeq, a, [b]);
    if !ExtentLeq(a, b) {
      assert Insert(ExtentLeq, a, []) == [a];
    }
    TwoLengths(a, b);
    TwoLengths(b, a);
  }

  /** One segment somewhere in a file of the given size. */
  method PlanSegment(logicalSize: int, cap: int) returns (e: Extent)
    requires 0 < cap <= logicalSize
    ensures Inside(e, logicalSize) && e.length <= cap
  {
    var length := RandomizedSegmentLength(logicalSize);
    if length > cap {
      length := cap;
    }
    var offset := RandomizedOffset(logicalSize, length);
    var seed := Intn(0x8000_0000_0000_0000);
    return Extent(offset.value, length, seed);
  }

  /**
    planFileContentPattern. It fails only on a negative size or a block generator that yields
    nothing; whatever it returns fits the file, predicts the bytes written and knows holes.
   */
  /** A planned content has the extents of its pattern: one stretch of data among holes, or updates in order of their place. */
  predicate PlannedExtents(content: Content) {
    && |content.sparseExtents| == (if content.pattern == SparseHoles && content.logicalSize > 0 then 1 else 0)
    && |content.overwriteExtents| == (if content.pattern == PartialRangeOverwrite && content.logicalSize > 0 then 2 else 0)
    && forall i, j :: 0 <= i < j < |content.overwriteExtents| ==>
         var a, b := content.overwriteExtents[i], content.overwriteExtents[j];
         a.offset < b.offset || (a.offset == b.offset && a.length <= b.length)
  }

  lemma UpdatesInOrder(logicalSize: int, written: int, seed: int, updates: seq<Extent>)
    requires |updates| == 2 && ExtentLeq(updates[0], updates[1]) && logicalSize > 0
    ensures PlannedExtents(Content(PartialRangeOverwrite, logicalSize, written, false, seed, [], [], updates))
  {
  }

  method PlanFileContentPattern(pattern: Pattern, logicalSize: int, generated: Option<Result<seq<Byte>, string>>)
    returns (r: Result<Content, string>)
    ensures r.Ok? <==> logicalSize >= 0 && (pattern == RepeatedBlocks ==> YieldsBlock(generated))
    ensures r.Ok? ==> GoodContent(r.value) && r.value.pattern == pattern && r.value.logicalSize == logicalSize
    ensures r.Ok? ==> PlannedExtents(r.value)
  {
    if logicalSize < 0 { return Err("content logical size must be >= 0"); }
    var seed := Intn(0x8000_0000_0000_0000);
    match pattern {
      case DenseRandom =>
        return Ok(Content(pattern, logicalSize, logicalSize, false, seed, [], [], []));
      case SparseHoles =>
        if logicalSize == 0 {
          return Ok(Content(pattern, 0, 0, false, 0, [], [], []));
        }
        var e := PlanSegment(logicalSize, if logicalSize > 1 then logicalSize - 1 else logicalSize);
        OneLength(e);
        return Ok(Content(pattern, logicalSize, e.length, logicalSize > e.length, 0, [], [e], []));
      case RepeatedBlocks =>
        var block := ResolveRepeatedBlock(generated, logicalSize);
        if block.Err? { return Err(block.error); }
        return Ok(Content(pattern, logicalSize, logicalSize, false, 0, block.value, [], []));
      case PartialRangeOverwrite =>
        if logicalSize == 0 {
          return Ok(Content(pattern, 0, 0, false, seed, [], [], []));
        }
        var updates, written := [], logicalSize;
        for i := 0 to OVERWRITE_COUNT
          invariant |updates| == i
          invariant forall j :: 0 <= j < i ==> Inside(updates[j], logicalSize)
          invariant i == 0 ==> written == logicalSize
          invariant i == 1 ==> written == logicalSize + updates[0].length
          invariant i == 2 ==> written == logicalSize + updates[0].length + updates[1].length
        {
          var e := PlanSegment(logicalSize, logicalSize);
          updates := updates + [e];
          written := written + e.length;
        }
        SortedPair(updates[0], updates[1]);
        assert updates == [updates[0], updates[1]];
        var sorted := Sort(ExtentLeq, updates);
        UpdatesInOrder(logicalSize, written, seed, sorted);
        hide Sort, ExtentLeq, PlannedExtents;
        return Ok(Content(pattern, logicalSize, written, false, seed, [], [], sorted));
    }
  }

  lemma TwoLengths(a: Extent, b: Extent)
    ensures SumLengths([a, b]) == a.length + b.length
  {
    OneLength(a);
    assert [a, b][..1] == [a];
  }

  lemma OneLength(e: Extent)
    ensures SumLengths([e]) == e.length
  {
    assert [e][..0] == [];
  }
}
