/**
  coverage_naming.go: byte-edge names. A name is a body with the awkward bytes of its class,
  followed by a separator and the low 32 bits of the cell id in hex. A character of a name
  stands for one byte. The FNV hash that seeds the body's byte stream is the parameter `seedOf`.
 */
module CoverageNaming {
  import opened Strings
  import opened Paths
  import opened CoverageContent

  type CellID = bv64

  const NAME_MAX_BYTES := 255
  const NAME_MIN_LEN := 8
  const NAME_DEFAULT_LEN := 16
  const SUFFIX_LEN := 9

  datatype NameClass =
    | Basic | LeadingSpaces | TrailingSpaces | LeadingDots | NewlineTab
    | ControlChars | InvalidUTF8 | UnicodeNormalization | NearMaxBytes

  // ---------------------------------------------------------------- the suffix

  function HexValue(c: char): bv64 {
    if c == '0' then 0 else if c == '1' then 1 else if c == '2' then 2 else if c == '3' then 3
    else if c == '4' then 4 else if c == '5' then 5 else if c == '6' then 6 else if c == '7' then 7
    else if c == '8' then 8 else if c == '9' then 9 else if c == 'a' then 10 else if c == 'b' then 11
    else if c == 'c' then 12 else if c == 'd' then 13 else if c == 'e' then 14 else 15
  }

  lemma HexRoundTrip(x: bv64)
    requires x < 16
    ensures HexValue(HexChar(x)) == x
  {
  }

  /** (cellID >> (4*(7-i))) & 0xF */
  function Nibble(cell: CellID, i: nat): (d: bv64)
    requires i < 8
    ensures d < 16
  {
    var shifted :=
      if i == 0 then cell >> 28 else if i == 1 then cell >> 24 else if i == 2 then cell >> 20 else if i == 3 then cell >> 16
      else if i == 4 then cell >> 12 else if i == 5 then cell >> 8 else if i == 6 then cell >> 4 else cell;
    shifted & 0xF
  }

  function Low32(x: CellID): CellID {
    x & 0xFFFF_FFFF
  }

  function HexDigits(cell: CellID): (digits: string)
    ensures |digits| == 8
  {
    seq(8, i requires 0 <= i < 8 => HexChar(Nibble(cell, i)))
  }

  function Suffix(cell: CellID): (suffix: string)
    ensures |suffix| == SUFFIX_LEN
  {
    "_" + HexDigits(cell)
  }

  lemma EightNibbles(a: CellID, b: CellID, e0: bool, e1: bool, e2: bool, e3: bool, e4: bool, e5: bool, e6: bool, e7: bool)
    requires e0 && e1 && e2 && e3 && e4 && e5 && e6 && e7
    requires e0 == ((a >> 28) & 0xF == (b >> 28) & 0xF)
    requires e1 == ((a >> 24) & 0xF == (b >> 24) & 0xF)
    requires e2 == ((a >> 20) & 0xF == (b >> 20) & 0xF)
    requires e3 == ((a >> 16) & 0xF == (b >> 16) & 0xF)
    requires e4 == ((a >> 12) & 0xF == (b >> 12) & 0xF)
    requires e5 == ((a >> 8) & 0xF == (b >> 8) & 0xF)
    requires e6 == ((a >> 4) & 0xF == (b >> 4) & 0xF)
    requires e7 == (a & 0xF == b & 0xF)
    ensures Low32(a) == Low32(b)
  {
  }

  lemma LowFromNibbles(a: CellID, b: CellID)
    requires forall i :: 0 <= i < 8 ==> Nibble(a, i) == Nibble(b, i)
    ensures Low32(a) == Low32(b)
  {
    EightNibbles(a, b, Nibble(a, 0) == Nibble(b, 0), Nibble(a, 1) == Nibble(b, 1), Nibble(a, 2) == Nibble(b, 2),
                 Nibble(a, 3) == Nibble(b, 3), Nibble(a, 4) == Nibble(b, 4), Nibble(a, 5) == Nibble(b, 5),
                 Nibble(a, 6) == Nibble(b, 6), Nibble(a, 7) == Nibble(b, 7));
  }

  lemma DigitDeterminesNibble(a: CellID, b: CellID, i: nat)
    requires i < 8 && HexDigits(a)[i] == HexDigits(b)[i]
    ensures Nibble(a, i) == Nibble(b, i)
  {
    HexRoundTrip(Nibble(a, i));
    HexRoundTrip(Nibble(b, i));
  }

  /** The suffix shows the low 32 bits. */
  lemma SuffixShowsLow32(a: CellID, b: CellID)
    requires Suffix(a) == Suffix(b)
    ensures Low32(a) == Low32(b)
  {
    assert Suffix(a)[1..] == HexDigits(a) && Suffix(b)[1..] == HexDigits(b);
    hide HexDigits, Nibble;
    forall i | 0 <= i < 8 ensures Nibble(a, i) == Nibble(b, i) {
      DigitDeterminesNibble(a, b, i);
    }
    LowFromNibbles(a, b);
  }

  lemma XorKeepsDifference(cell: CellID, k: CellID, l: CellID)
    requires Low32(cell ^ k) == Low32(cell ^ l)
    ensures Low32(k) == Low32(l)
  {
  }

  lemma XorZero(cell: CellID)
    ensures cell ^ 0 == cell
  {
  }

  /** Cells derived by xor from one cell get different suffixes when the masks differ in the low 32 bits. */
  lemma MasksSeparate(cell: CellID, k: CellID, l: CellID)
    requires Low32(k) != Low32(l)
    ensures Suffix(cell ^ k) != Suffix(cell ^ l)
  {
    if Suffix(cell ^ k) == Suffix(cell ^ l) {
      SuffixShowsLow32(cell ^ k, cell ^ l);
      XorKeepsDifference(cell, k, l);
    }
  }

  // ---------------------------------------------------------------- what a name promises

  predicate SafeChar(c: char) {
    c != '/' && c != NUL && c < 256 as char
  }

  predicate SafeChars(s: string) {
    forall i :: 0 <= i < |s| ==> SafeChar(s[i])
  }

  predicate EndsWith(name: string, suffix: string) {
    |name| >= |suffix| && name[|name| - |suffix|..] == suffix
  }

  /** A usable file name that carries its cell. */
  ghost predicate NamesCell(name: string, cell: CellID) {
    ValidName(name) && SafeChars(name) && |name| <= 255 && EndsWith(name, Suffix(cell))
  }

  lemma SuffixSafe(cell: CellID)
    ensures SafeChars(Suffix(cell))
  {
    forall i | 0 <= i < 8 ensures SafeChar(HexDigits(cell)[i]) {
      assert SafeChar(HexChar(Nibble(cell, i)));
    }
  }

  lemma BodyAndSuffix(body: string, cell: CellID)
    requires SafeChars(body) && |body| <= NAME_MAX_BYTES - SUFFIX_LEN
    ensures NamesCell(body + Suffix(cell), cell)
  {
    SuffixSafe(cell);
    hide Suffix;
    var name := body + Suffix(cell);
    assert |name| >= SUFFIX_LEN;
    assert '/' !in name && NUL !in name;
    assert name[|body|..] == Suffix(cell);
  }

  /** Names of cells with different suffixes differ. */
  lemma NamesDiffer(a: string, x: CellID, b: string, y: CellID)
    requires NamesCell(a, x) && NamesCell(b, y) && Suffix(x) != Suffix(y)
    ensures a != b
  {
  }

  // ---------------------------------------------------------------- bodies

  /** The safe alphabet: a-z, A-Z, 0-9, '-' and '_'. */
  function AlphabetChar(i: nat): (c: char)
    requires i < 64
    ensures SafeChar(c) && c != ' ' && c != '.'
  {
    if i < 26 then 'a' + i as char else if i < 52 then 'A' + (i - 26) as char
    else if i < 62 then '0' + (i - 52) as char else if i == 62 then '-' else '_'
  }

  function FillChar(seed: nat, i: nat): (c: char)
    ensures SafeChar(c) && c != ' ' && c != '.'
  {
    AlphabetChar(StreamByte(seed, i) % 64)
  }

  /** Fill the buffer from the stream; the stream is left advanced. */
  method FillBody(body: array<char>, seed: nat) returns (stream: nat)
    modifies body
    ensures forall i :: 0 <= i < body.Length ==> body[i] == FillChar(seed, i)
  {
    stream := seed;
    for i := 0 to body.Length
      invariant stream == LcgAt(seed, i)
      invariant forall j :: 0 <= j < i ==> body[j] == FillChar(seed, j)
    {
      stream := Lcg(stream);
      body[i] := AlphabetChar(TopByte(stream) % 64);
    }
  }

  /** Each draw gives its own line break. */
  lemma LineBreaksDiffer()
    ensures {LineBreak(0), LineBreak(1), LineBreak(2)} == {'\n', '\r', '\t'}
  {
  }

  /** How many bytes a class overwrites: at least one, and all but one at most when there are two. */
  function RunLength(drawn: nat, bodyLen: nat): (n: nat)
    requires drawn >= 1 && bodyLen >= 1
    ensures 1 <= n <= bodyLen && n <= drawn && (bodyLen >= 2 ==> n < bodyLen)
  {
    if drawn > bodyLen - 1 then (if bodyLen - 1 < 1 then 1 else bodyLen - 1) else drawn
  }

  /** The bytes a class puts at an end of the body. */
  predicate Special(cls: NameClass, c: char) {
    match cls
    case Basic => false
    case NearMaxBytes => false
    case LeadingSpaces => c == ' '
    case TrailingSpaces => c == ' '
    case LeadingDots => c == '.'
    case NewlineTab => c == '\n' || c == '\r' || c == '\t'
    case ControlChars => 1 as char <= c <= 31 as char
    case InvalidUTF8 => 128 as char <= c < 256 as char
    case UnicodeNormalization => c == 'e' || 128 as char <= c < 256 as char
  }

  /** How many special bytes a class may put there. */
  function Most(cls: NameClass): nat {
    match cls
    case Basic => 0
    case NearMaxBytes => 0
    case LeadingSpaces => 3
    case TrailingSpaces => 3
    case LeadingDots => 2
    case NewlineTab => 3
    case ControlChars => 4
    case InvalidUTF8 => 6
    case UnicodeNormalization => 7
  }

  predicate IsSpecialAt(cls: NameClass, len: int, n: nat, i: int) {
    if cls.TrailingSpaces? then i >= len - n else i < n
  }

  /** Exactly `n` bytes at the class's end are special, the others are the stream's fill. */
  predicate Run(body: string, seed: nat, cls: NameClass, n: nat) {
    forall i :: 0 <= i < |body| ==>
      if IsSpecialAt(cls, |body|, n, i) then Special(cls, body[i]) else body[i] == FillChar(seed, i)
  }

  /** The body is the fill, with at least one special byte when the class has any. */
  ghost predicate Edged(body: string, seed: nat, cls: NameClass) {
    exists n: nat :: Run(body, seed, cls, n) && n <= Most(cls) && n <= |body| && (Most(cls) > 0 ==> n >= 1)
  }

  lemma EdgedIsSafe(body: string, seed: nat, cls: NameClass)
    requires Edged(body, seed, cls)
    ensures SafeChars(body)
  {
    var n: nat :| Run(body, seed, cls, n) && n <= Most(cls) && n <= |body| && (Most(cls) > 0 ==> n >= 1);
    forall i | 0 <= i < |body| ensures SafeChar(body[i]) {
      assert IsSpecialAt(cls, |body|, n, i) ==> Special(cls, body[i]);
    }
  }

  /** Overwrite the first bytes with one character. */
  method OverwriteLeading(body: array<char>, n: nat, c: char)
    requires n <= body.Length
    modifies body
    ensures forall i :: 0 <= i < n ==> body[i] == c
    ensures forall i :: n <= i < body.Length ==> body[i] == old(body[i])
  {
    for i := 0 to n
      invariant forall j :: 0 <= j < i ==> body[j] == c
      invariant forall j :: i <= j < body.Length ==> body[j] == old(body[j])
    {
      body[i] := c;
    }
  }

  method OverwriteTrailing(body: array<char>, n: nat, c: char)
    requires n <= body.Length
    modifies body
    ensures forall i :: body.Length - n <= i < body.Length ==> body[i] == c
    ensures forall i :: 0 <= i < body.Length - n ==> body[i] == old(body[i])
  {
    for k := 0 to n
      invariant forall j :: body.Length - k <= j < body.Length ==> body[j] == c
      invariant forall j :: 0 <= j < body.Length - k ==> body[j] == old(body[j])
    {
      body[body.Length - 1 - k] := c;
    }
  }

  function LineBreak(k: nat): char
    requires k < 3
  {
    if k == 0 then '\n' else if k == 1 then '\r' else '\t'
  }

  /** Bytes drawn from the stream: line breaks, or control characters. */
  method OverwriteDrawn(body: array<char>, n: nat, start: nat, cls: NameClass)
    requires n <= body.Length && (cls.NewlineTab? || cls.ControlChars?)
    modifies body
    ensures forall i :: 0 <= i < n ==> Special(cls, body[i])
    ensures forall i :: n <= i < body.Length ==> body[i] == old(body[i])
  {
    var stream := start;
    for i := 0 to n
      invariant forall j :: 0 <= j < i ==> Special(cls, body[j])
      invariant forall j :: i <= j < body.Length ==> body[j] == old(body[j])
    {
      stream := Lcg(stream);
      body[i] := if cls.ControlChars? then (1 + TopByte(stream) % 31) as char else LineBreak(TopByte(stream) % 3);
    }
  }

  /** coverageInvalidUTF8Sequences */
  function InvalidSequence(k: nat): (s: string)
    requires k < 8
    ensures 1 <= |s| <= 2 && forall i :: 0 <= i < |s| ==> 128 as char <= s[i] < 256 as char
  {
    match k
    case 0 => [0x80 as char]
    case 1 => [0xBF as char]
    case 2 => [0xC0 as char]
    case 3 => [0xC1 as char]
    case 4 => [0xF5 as char]
    case 5 => [0xFF as char]
    case 6 => [0xC2 as char, 0x80 as char]
    case _ => [0xE0 as char, 0x80 as char]
  }

  method OverwriteInvalid(body: array<char>, count: nat, start: nat) returns (n: nat)
    requires 1 <= count <= 3 && body.Length >= 1
    modifies body
    ensures 1 <= n <= body.Length && n <= 6
    ensures forall i :: 0 <= i < n ==> 128 as char <= body[i] < 256 as char
    ensures forall i :: n <= i < body.Length ==> body[i] == old(body[i])
  {
    var stream, pos, i := start, 0, 0;
    while i < count && pos < body.Length
      invariant 0 <= i <= count && i <= pos <= body.Length && pos <= 2 * i && (pos == 0 ==> i == 0)
      invariant forall j :: 0 <= j < pos ==> 128 as char <= body[j] < 256 as char
      invariant forall j :: pos <= j < body.Length ==> body[j] == old(body[j])
    {
      stream := Lcg(stream);
      var bytes := InvalidSequence(TopByte(stream) % 8);
      body[pos] := bytes[0];
      pos := pos + 1;
      if |bytes| > 1 && pos < body.Length {
        body[pos] := bytes[1];
        pos := pos + 1;
      }
      i := i + 1;
    }
    n := pos;
  }

  /** coverageCombiningSequence */
  function CombiningByte(k: nat): (c: char)
    requires k < 8
    ensures 128 as char <= c < 256 as char
    ensures if k % 2 == 0 then c == 0xCC as char else 0x81 as char <= c <= 0x84 as char
  {
    if k % 2 == 0 then 0xCC as char else (0x81 + k / 2) as char
  }

  /** After the `e` come the combining marks U+0301 to U+0304, two bytes of UTF-8 each. */
  predicate CombiningAt(i: int, c: char) {
    if i % 2 == 1 then c == 0xCC as char else 0x81 as char <= c <= 0x84 as char
  }

  method OverwriteCombining(body: array<char>, count: nat) returns (n: nat)
    requires 1 <= count <= 3 && body.Length >= 1
    modifies body
    ensures 1 <= n <= body.Length && n <= 7 && body[0] == 'e'
    ensures forall i :: 1 <= i < n ==> 128 as char <= body[i] < 256 as char
    ensures forall i :: 1 <= i < n ==> CombiningAt(i, body[i])
    ensures forall i :: n <= i < body.Length ==> body[i] == old(body[i])
  {
    body[0] := 'e';
    var pos, i := 1, 0;
    while i < count && pos + 1 < body.Length
      invariant 0 <= i <= count && 1 <= pos <= body.Length && pos <= 1 + 2 * i
      invariant body[0] == 'e'
      invariant forall j :: 1 <= j < pos ==> 128 as char <= body[j] < 256 as char && CombiningAt(j, body[j])
      invariant pos < body.Length ==> pos == 1 + 2 * i
      invariant forall j :: pos <= j < body.Length ==> body[j] == old(body[j])
    {
      body[pos] := CombiningByte((i * 2) % 8);
      pos := pos + 1;
      if pos < body.Length {
        body[pos] := CombiningByte((i * 2 + 1) % 8);
        pos := pos + 1;
      }
      i := i + 1;
    }
    n := pos;
  }

  /** coverageNameBody: safe bytes, and the ones the class asks for where it asks for them. */
  method NameBody(seedOf: CellID -> nat, cls: NameClass, requested: int, cell: CellID) returns (text: string)
    ensures |text| == (if requested <= 0 then 1 else requested)
    ensures SafeChars(text) && Edged(text, seedOf(cell), cls)
  {
    var bodyLen := if requested <= 0 then 1 else requested;
    var body := new char[bodyLen];
    var seed := seedOf(cell);
    var stream := FillBody(body, seed);
    var drawn := TopByte(Lcg(stream));
    var n: nat := 0;
    match cls {
      case Basic =>
      case NearMaxBytes =>
      case LeadingSpaces =>
        n := RunLength(1 + drawn % 3, bodyLen);
        OverwriteLeading(body, n, ' ');
      case TrailingSpaces =>
        n := RunLength(1 + drawn % 3, bodyLen);
        OverwriteTrailing(body, n, ' ');
      case LeadingDots =>
        n := RunLength(1 + drawn % 2, bodyLen);
        OverwriteLeading(body, n, '.');
      case NewlineTab =>
        n := RunLength(1 + drawn % 3, bodyLen);
        OverwriteDrawn(body, n, Lcg(stream), cls);
      case ControlChars =>
        n := RunLength(1 + drawn % 4, bodyLen);
        OverwriteDrawn(body, n, Lcg(stream), cls);
      case InvalidUTF8 =>
        n := OverwriteInvalid(body, 1 + drawn % 3, Lcg(stream));
      case UnicodeNormalization =>
        n := OverwriteCombining(body, 1 + drawn % 3);
    }
    text := body[..];
    assert Run(text, seed, cls, n);
    EdgedIsSafe(text, seed, cls);
  }

  /**
    coverageDeterministicName: a valid component of at most 255 bytes that ends in the suffix of
    its cell, whatever the class and whatever the hash; near-max names are exactly 255 bytes.
   */
  method DeterministicName(seedOf: CellID -> nat, cls: NameClass, targetLen: int, cell: CellID) returns (name: string)
    requires targetLen <= NAME_MAX_BYTES
    ensures NamesCell(name, cell)
    ensures cls.NearMaxBytes? ==> |name| == 255
    ensures !cls.NearMaxBytes? ==> |name| == (if targetLen < 8 then 16 else if targetLen < 10 then 10 else targetLen)
    ensures name[|name| - SUFFIX_LEN] == '_'
    ensures Edged(name[..|name| - SUFFIX_LEN], seedOf(cell), cls)
  {
    var length := if targetLen < NAME_MIN_LEN then NAME_DEFAULT_LEN else targetLen;
    var suffix := Suffix(cell);
    var bodyLen := if cls.NearMaxBytes? then NAME_MAX_BYTES - |suffix| else length - |suffix|;
    var body := NameBody(seedOf, cls, bodyLen, cell);
    BodyAndSuffix(body, cell);
    name := body + suffix;
    assert name[..|name| - SUFFIX_LEN] == body;
  }
}
