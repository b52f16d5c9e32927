/**
  internal/aclxattr/aclxattr.go's Marshal and Parse. The kernel uses the host's byte order, so
  everything is stated for both.
 */
module AclCodec {
  import opened Wrappers
  import opened Sorting
  import opened Acl

  datatype Endian = Little | Big

  // ---------------------------------------------------------------- numbers

  function Bytes2(order: Endian, x: U16): (bytes: seq<Byte>)
    ensures |bytes| == 2
  {
    var low, high := x % 256, x / 256;
    assert x == 256 * high + low && 0 <= high < 256;
    if order.Little? then [low, high] else [high, low]
  }

  function Bytes4(order: Endian, x: U32): (bytes: seq<Byte>)
    ensures |bytes| == 4
  {
    var low, high := x % 0x1_0000, x / 0x1_0000;
    if order.Little? then Bytes2(order, low) + Bytes2(order, high) else Bytes2(order, high) + Bytes2(order, low)
  }

  function Number2(order: Endian, bytes: seq<Byte>): U16
    requires |bytes| == 2
  {
    var first: int, second: int := bytes[0], bytes[1];
    if order.Little? then first + 256 * second else second + 256 * first
  }

  function Number4(order: Endian, bytes: seq<Byte>): U32
    requires |bytes| == 4
  {
    var first: int, second: int := Number2(order, bytes[..2]), Number2(order, bytes[2..]);
    if order.Little? then first + 0x1_0000 * second else second + 0x1_0000 * first
  }

  lemma NumberBytes2(order: Endian, x: U16)
    ensures Number2(order, Bytes2(order, x)) == x
  {
  }

  lemma NumberBytes4(order: Endian, x: U32)
    ensures Number4(order, Bytes4(order, x)) == x
  {
    var low, high := x % 0x1_0000, x / 0x1_0000;
    NumberBytes2(order, low);
    NumberBytes2(order, high);
    var bytes := Bytes4(order, x);
    var first := if order.Little? then low else high;
    var second := if order.Little? then high else low;
    assert bytes[..2] == Bytes2(order, first) && bytes[2..] == Bytes2(order, second);
  }

  lemma BytesNumber2(order: Endian, bytes: seq<Byte>)
    requires |bytes| == 2
    ensures Bytes2(order, Number2(order, bytes)) == bytes
  {
  }

  lemma BytesNumber4(order: Endian, bytes: seq<Byte>)
    requires |bytes| == 4
    ensures Bytes4(order, Number4(order, bytes)) == bytes
  {
    BytesNumber2(order, bytes[..2]);
    BytesNumber2(order, bytes[2..]);
    assert bytes == bytes[..2] + bytes[2..];
    var first, second := Number2(order, bytes[..2]), Number2(order, bytes[2..]);
    SplitNumber(if order.Little? then first else second, if order.Little? then second else first);
  }

  lemma SplitNumber(low: U16, high: U16)
    ensures (low + 0x1_0000 * high) % 0x1_0000 == low && (low + 0x1_0000 * high) / 0x1_0000 == high
  {
  }

  // ---------------------------------------------------------------- records

  function EncodeEntry(order: Endian, e: Entry): (bytes: seq<Byte>)
    ensures |bytes| == RECORD
  {
    Bytes2(order, e.tag) + Bytes2(order, e.perm) + Bytes4(order, e.id)
  }

  function DecodeEntry(order: Endian, bytes: seq<Byte>): Entry
    requires |bytes| == RECORD
  {
    Entry(Number2(order, bytes[..2]), Number2(order, bytes[2..4]), Number4(order, bytes[4..]))
  }

  lemma DecodeEncode(order: Endian, e: Entry)
    ensures DecodeEntry(order, EncodeEntry(order, e)) == e
  {
    var bytes := EncodeEntry(order, e);
    assert bytes[..2] == Bytes2(order, e.tag) && bytes[2..4] == Bytes2(order, e.perm) && bytes[4..] == Bytes4(order, e.id);
    hide Bytes2, Bytes4;
    NumberBytes2(order, e.tag);
    NumberBytes2(order, e.perm);
    NumberBytes4(order, e.id);
  }

  lemma EncodeDecode(order: Endian, bytes: seq<Byte>)
    requires |bytes| == RECORD
    ensures EncodeEntry(order, DecodeEntry(order, bytes)) == bytes
  {
    hide Bytes2, Bytes4, Number2, Number4;
    BytesNumber2(order, bytes[..2]);
    BytesNumber2(order, bytes[2..4]);
    BytesNumber4(order, bytes[4..]);
    assert bytes == bytes[..2] + bytes[2..4] + bytes[4..];
  }

  function EncodeAll(order: Endian, entries: seq<Entry>): (bytes: seq<Byte>)
    ensures |bytes| == RECORD * |entries|
  {
    if entries == [] then [] else EncodeAll(order, entries[..|entries| - 1]) + EncodeEntry(order, entries[|entries| - 1])
  }

  function DecodeAll(order: Endian, bytes: seq<Byte>): (entries: seq<Entry>)
    requires |bytes| % RECORD == 0
    ensures |entries| == |bytes| / RECORD
  {
    if bytes == [] then []
    else DecodeAll(order, bytes[..|bytes| - RECORD]) + [DecodeEntry(order, bytes[|bytes| - RECORD..])]
  }

  lemma NoRecords(order: Endian)
    ensures EncodeAll(order, []) == [] && DecodeAll(order, []) == []
  {
  }

  lemma DecodeSnoc(order: Endian, bytes: seq<Byte>, record: seq<Byte>)
    requires |bytes| % RECORD == 0 && |record| == RECORD
    ensures DecodeAll(order, bytes + record) == DecodeAll(order, bytes) + [DecodeEntry(order, record)]
  {
    hide DecodeEntry;
    var all := bytes + record;
    assert all[..|all| - RECORD] == bytes && all[|all| - RECORD..] == record;
  }

  lemma EncodeSnoc(order: Endian, entries: seq<Entry>, e: Entry)
    ensures EncodeAll(order, entries + [e]) == EncodeAll(order, entries) + EncodeEntry(order, e)
  {
    hide EncodeEntry;
    assert (entries + [e])[..|entries|] == entries;
  }

  lemma {:induction false} DecodeEncodeAll(order: Endian, entries: seq<Entry>)
    ensures DecodeAll(order, EncodeAll(order, entries)) == entries
  {
    hide DecodeEntry, EncodeEntry, DecodeAll, EncodeAll;
    if entries == [] {
      assert EncodeAll(order, []) == [] && DecodeAll(order, []) == [] by { NoRecords(order); }
    } else {
      var front, last := entries[..|entries| - 1], entries[|entries| - 1];
      EncodeSnoc(order, front, last);
      DecodeEncodeAll(order, front);
      DecodeEncode(order, last);
      DecodeSnoc(order, EncodeAll(order, front), EncodeEntry(order, last));
      assert entries == front + [last];
    }
  }

  lemma {:induction false} EncodeDecodeAll(order: Endian, bytes: seq<Byte>)
    requires |bytes| % RECORD == 0
    ensures EncodeAll(order, DecodeAll(order, bytes)) == bytes
  {
    hide DecodeEntry, EncodeEntry, DecodeAll, EncodeAll;
    if bytes == [] {
      NoRecords(order);
    } else {
      var front, last := bytes[..|bytes| - RECORD], bytes[|bytes| - RECORD..];
      EncodeDecodeAll(order, front);
      EncodeDecode(order, last);
      assert bytes == front + last;
      DecodeSnoc(order, front, last);
      EncodeSnoc(order, DecodeAll(order, front), DecodeEntry(order, last));
    }
  }

  // ---------------------------------------------------------------- Marshal and Parse

  function Payload(order: Endian, entries: seq<Entry>): seq<Byte> {
    Bytes4(order, VERSION) + EncodeAll(order, entries)
  }

  /** What Marshal returns, if anything. */
  ghost function Marshalled(order: Endian, entries: seq<Entry>): Option<seq<Byte>> {
    if entries == [] then Some([])
    else if ValidACL(SortEntries(entries)) then Some(Payload(order, SortEntries(entries)))
    else None
  }

  /** The number that bytes spell, lowest first. */
  function Value(bytes: seq<Byte>): int {
    if bytes == [] then 0 else (bytes[0] as int) + 256 * Value(bytes[1..])
  }

  lemma ValueOf2(a: Byte, b: Byte)
    ensures Value([a, b]) == (a as int) + 256 * (b as int)
  {
    assert [a, b][1..] == [b] && [b][1..] == [];
    assert Value([b]) == (b as int) + 256 * Value([]);
  }

  lemma ValueOf4(a: Byte, b: Byte, c: Byte, d: Byte)
    ensures Value([a, b, c, d]) == Value([a, b]) + 0x1_0000 * Value([c, d])
  {
    assert [a, b, c, d][1..] == [b, c, d] && [b, c, d][1..] == [c, d];
    assert Value([b, c, d]) == (b as int) + 256 * Value([c, d]);
    assert Value([a, b, c, d]) == (a as int) + 256 * Value([b, c, d]);
    ValueOf2(a, b);
  }

  /** The fields of a record as the kernel lays them out: tag, permissions, id, in either byte order. */
  lemma RecordFormat(e: Entry)
    ensures var b := EncodeEntry(Little, e);
            Value([b[0], b[1]]) == e.tag && Value([b[2], b[3]]) == e.perm && Value([b[4], b[5], b[6], b[7]]) == e.id
    ensures var b := EncodeEntry(Big, e);
            Value([b[1], b[0]]) == e.tag && Value([b[3], b[2]]) == e.perm && Value([b[7], b[6], b[5], b[4]]) == e.id
  {
    hide Value;
    var low, high := e.id % 0x1_0000, e.id / 0x1_0000;
    Bytes2Value(e.tag);
    Bytes2Value(e.perm);
    Bytes2Value(low);
    Bytes2Value(high);
    var l, b := EncodeEntry(Little, e), EncodeEntry(Big, e);
    ValueOf4(l[4], l[5], l[6], l[7]);
    ValueOf4(b[7], b[6], b[5], b[4]);
    hide Bytes2;
    assert l[4] == Bytes2(Little, low)[0] && l[5] == Bytes2(Little, low)[1] && l[6] == Bytes2(Little, high)[0] && l[7] == Bytes2(Little, high)[1];
    assert b[4] == Bytes2(Big, high)[0] && b[5] == Bytes2(Big, high)[1] && b[6] == Bytes2(Big, low)[0] && b[7] == Bytes2(Big, low)[1];
  }

  lemma Bytes2Value(x: U16)
    ensures var l, b := Bytes2(Little, x), Bytes2(Big, x); Value([l[0], l[1]]) == x && Value([b[1], b[0]]) == x
  {
    var low, high := x % 256, x / 256;
    assert x == low + 256 * high;
    ValueOf2(low, high);
    hide Value;
  }

  lemma {:induction false} RecordAt(order: Endian, entries: seq<Entry>, i: nat)
    requires i < |entries|
    ensures EncodeAll(order, entries)[RECORD * i..RECORD * (i + 1)] == EncodeEntry(order, entries[i])
    decreases entries
  {
    hide EncodeEntry;
    var front := entries[..|entries| - 1];
    if i < |front| {
      RecordAt(order, front, i);
      assert EncodeAll(order, entries)[RECORD * i..RECORD * (i + 1)] == EncodeAll(order, front)[RECORD * i..RECORD * (i + 1)];
    }
  }

  lemma VersionBytes()
    ensures Bytes4(Little, VERSION) == [2, 0, 0, 0] && Bytes4(Big, VERSION) == [0, 0, 0, 2]
  {
  }

  /** Version 2 in the first four bytes, then record after record, under the tag numbers of the kernel. */
  lemma PayloadFormat(order: Endian, entries: seq<Entry>, i: nat)
    requires i < |entries|
    ensures Payload(order, entries)[..4] == (if order.Little? then [2, 0, 0, 0] else [0, 0, 0, 2])
    ensures Payload(order, entries)[4 + 8 * i..12 + 8 * i] == EncodeEntry(order, entries[i])
    ensures USER_OBJ == 1 && USER == 2 && GROUP_OBJ == 4 && GROUP == 8 && MASK == 16 && OTHER == 32
  {
    VersionBytes();
    RecordAt(order, entries, i);
    hide EncodeEntry, EncodeAll, Bytes4;
    assert Payload(order, entries)[4 + 8 * i..12 + 8 * i] == EncodeAll(order, entries)[8 * i..8 * (i + 1)];
  }

  method Marshal(order: Endian, entries: seq<Entry>) returns (r: Result<seq<Byte>, AclError>)
    ensures r.Ok? <==> Marshalled(order, entries).Some?
    ensures r.Ok? ==> Some(r.value) == Marshalled(order, entries)
  {
    if |entries| == 0 { return Ok([]); }
    var sorted := SortEntries(entries);
    SortValid(entries);
    var error := Validate(sorted);
    if error.Some? { return Err(error.value); }
    var data := WritePayload(order, sorted);
    return Ok(data[..]);
  }

  /** The buffer Marshal fills record by record. */
  method WritePayload(order: Endian, sorted: seq<Entry>) returns (data: array<Byte>)
    ensures fresh(data) && data[..] == Payload(order, sorted)
  {
    hide EncodeEntry, EncodeAll, Bytes4;
    data := new Byte[HEADER + RECORD * |sorted|](_ => 0);
    PutBytes(data, 0, Bytes4(order, VERSION));
    assert EncodeAll(order, sorted[..0]) == [];
    var offset := HEADER;
    for i := 0 to |sorted|
      invariant offset == HEADER + RECORD * i
      invariant data[..offset] == Payload(order, sorted[..i])
    {
      assert sorted[..i + 1] == sorted[..i] + [sorted[i]];
      EncodeSnoc(order, sorted[..i], sorted[i]);
      PutBytes(data, offset, EncodeEntry(order, sorted[i]));
      offset := offset + RECORD;
    }
    assert sorted[..|sorted|] == sorted && data[..] == data[..offset];
  }

  method PutBytes(data: array<Byte>, offset: nat, bytes: seq<Byte>)
    requires offset + |bytes| <= data.Length
    modifies data
    ensures data[..offset + |bytes|] == old(data[..offset]) + bytes
    ensures forall k :: offset + |bytes| <= k < data.Length ==> data[k] == old(data[k])
  {
    for i := 0 to |bytes|
      invariant data[..offset + i] == old(data[..offset]) + bytes[..i]
      invariant forall k :: offset + i <= k < data.Length ==> data[k] == old(data[k])
    {
      data[offset + i] := bytes[i];
      assert data[..offset + i + 1] == data[..offset + i] + [bytes[i]];
    }
    assert bytes[..|bytes|] == bytes;
  }

  /** The payload has a known version and whole records. */
  predicate Framed(order: Endian, data: seq<Byte>) {
    |data| >= HEADER && (|data| - HEADER) % RECORD == 0 && Number4(order, data[..HEADER]) == VERSION
  }

  /** What Parse returns, if anything. */
  ghost function Parsed(order: Endian, data: seq<Byte>): Option<seq<Entry>> {
    if data == [] then Some([])
    else if !Framed(order, data) then None
    else
      var entries := SortEntries(DecodeAll(order, data[HEADER..]));
      if ValidACL(entries) then Some(entries) else None
  }

  method Parse(order: Endian, data: seq<Byte>) returns (r: Result<seq<Entry>, AclError>)
    ensures r.Ok? <==> Parsed(order, data).Some?
    ensures r.Ok? ==> Some(r.value) == Parsed(order, data)
  {
    if |data| == 0 { return Ok([]); }
    if |data| < HEADER { return Err(PayloadTooShort); }
    if (|data| - HEADER) % RECORD != 0 { return Err(PayloadMalformed); }
    if Number4(order, data[..HEADER]) != VERSION { return Err(VersionMismatch); }
    var entries := ReadRecords(order, data);
    entries := SortEntries(entries);
    var error := Validate(entries);
    if error.Some? { return Err(error.value); }
    return Ok(entries);
  }

  method ReadRecords(order: Endian, data: seq<Byte>) returns (entries: seq<Entry>)
    requires |data| >= HEADER && (|data| - HEADER) % RECORD == 0
    ensures entries == DecodeAll(order, data[HEADER..])
  {
    hide DecodeEntry, DecodeAll;
    var nEntries := (|data| - HEADER) / RECORD;
    entries := [];
    var offset := HEADER;
    assert DecodeAll(order, data[HEADER..HEADER]) == [];
    for i := 0 to nEntries
      invariant offset == HEADER + RECORD * i
      invariant entries == DecodeAll(order, data[HEADER..offset])
    {
      assert data[HEADER..offset + RECORD] == data[HEADER..offset] + data[offset..offset + RECORD];
      DecodeSnoc(order, data[HEADER..offset], data[offset..offset + RECORD]);
      entries := entries + [DecodeEntry(order, data[offset..offset + RECORD])];
      offset := offset + RECORD;
    }
    assert data[HEADER..offset] == data[HEADER..];
  }

  // ---------------------------------------------------------------- inverses

  lemma PayloadIsFramed(order: Endian, entries: seq<Entry>)
    ensures Framed(order, Payload(order, entries))
    ensures DecodeAll(order, Payload(order, entries)[HEADER..]) == entries
  {
    NumberBytes4(order, VERSION);
    DecodeEncodeAll(order, entries);
    var data := Payload(order, entries);
    assert data[..HEADER] == Bytes4(order, VERSION) && data[HEADER..] == EncodeAll(order, entries);
    hide Number4, Bytes4, EncodeAll, DecodeAll;
    assert |data| - HEADER == RECORD * |entries|;
  }

  lemma SortedAgain(entries: seq<Entry>)
    ensures SortEntries(SortEntries(entries)) == SortEntries(entries)
  {
    EntryOrder();
    SortIsSorted(EntryLeq, entries);
    SortFixpoint(EntryLeq, SortEntries(entries));
  }

  /** Marshal accepts exactly the valid lists; parsing gives them back in canonical order. */
  lemma ParseMarshal(order: Endian, entries: seq<Entry>)
    ensures Marshalled(order, entries).Some? <==> ValidACL(entries)
    ensures ValidACL(entries) ==> Parsed(order, Marshalled(order, entries).value) == Some(SortEntries(entries))
  {
    SortValid(entries);
    if entries != [] && ValidACL(entries) {
      PayloadIsFramed(order, SortEntries(entries));
      SortedAgain(entries);
      assert Payload(order, SortEntries(entries)) != [];
    }
  }

  /** Marshal does not see the order of its input. */
  lemma MarshalPermutation(order: Endian, a: seq<Entry>, b: seq<Entry>)
    requires multiset(a) == multiset(b)
    ensures Marshalled(order, a) == Marshalled(order, b)
  {
    assert |multiset(a)| == |multiset(b)|;
    SortValid(a);
    SortValid(b);
    ValidPermutation(a, b);
    if ValidACL(a) && a != [] {
      ValidSeparates(a);
      EntryOrder();
      SortPermutation(EntryLeq, a, b);
    }
  }

  /** The payload lists its records in canonical order and is not a bare header. */
  ghost predicate CanonicalPayload(order: Endian, data: seq<Byte>) {
    data == [] || (Framed(order, data) && |data| > HEADER && Sorted(EntryLeq, DecodeAll(order, data[HEADER..])))
  }

  /** What Parse accepts can be marshalled, and parsing that gives the same list. */
  lemma MarshalParse(order: Endian, data: seq<Byte>)
    requires Parsed(order, data).Some?
    ensures var entries := Parsed(order, data).value;
            Marshalled(order, entries).Some?
            && Parsed(order, Marshalled(order, entries).value) == Some(entries)
            && (Marshalled(order, entries).value == data <==> CanonicalPayload(order, data))
  {
    if data != [] {
      hide ValidACL, SortEntries, EncodeAll, DecodeAll, Number4, Bytes4;
      var records := DecodeAll(order, data[HEADER..]);
      SortedAgain(records);
      ParseMarshal(order, SortEntries(records));
      HeaderIsVersion(order, data);
      RecordsInOrder(order, data);
      SortValid(records);
    }
  }

  lemma HeaderIsVersion(order: Endian, data: seq<Byte>)
    requires Framed(order, data)
    ensures data == Payload(order, DecodeAll(order, data[HEADER..]))
  {
    BytesNumber4(order, data[..HEADER]);
    EncodeDecodeAll(order, data[HEADER..]);
    assert data == data[..HEADER] + data[HEADER..];
  }

  lemma RecordsInOrder(order: Endian, data: seq<Byte>)
    requires Framed(order, data)
    ensures var records := DecodeAll(order, data[HEADER..]);
            Payload(order, SortEntries(records)) == data <==> Sorted(EntryLeq, records)
  {
    var records := DecodeAll(order, data[HEADER..]);
    HeaderIsVersion(order, data);
    EntryOrder();
    if Sorted(EntryLeq, records) {
      SortFixpoint(EntryLeq, records);
    }
    if Payload(order, SortEntries(records)) == data {
      PayloadIsFramed(order, SortEntries(records));
      SortIsSorted(EntryLeq, records);
    }
  }

  /** The exception: a bare header is accepted as an empty list, which marshals to nothing. */
  lemma BareHeader(order: Endian)
    ensures var data := Bytes4(order, VERSION);
            Parsed(order, data) == Some([]) && Marshalled(order, []) == Some([]) != Some(data)
  {
    NumberBytes4(order, VERSION);
    var data := Bytes4(order, VERSION);
    assert data[..HEADER] == data && data[HEADER..] == [];
  }
}
