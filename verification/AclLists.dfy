/**
  internal/aclxattr/aclxattr.go: lists of text entries, collected in maps keyed by tag and
  qualifier and read out in canonical order.
 */
module AclLists {
  import opened Wrappers
  import opened Strings
  import opened Sorting
  import opened Acl
  import opened AclText

  type Key = (U16, U32)
  type EntryMap = map<Key, Entry>

  function KeyOf(e: Entry): Key {
    (e.tag, e.id)
  }

  predicate WellKeyed(m: EntryMap) {
    forall k :: k in m ==> KeyOf(m[k]) == k
  }

  predicate Holds(m: EntryMap, e: Entry) {
    KeyOf(e) in m && m[KeyOf(e)] == e
  }

  /** The map's entries in canonical order. */
  ghost predicate Lists(list: seq<Entry>, m: EntryMap) {
    Sorted(EntryLeq, list) && Distinct(list) && forall e :: e in list <==> Holds(m, e)
  }

  predicate KnownTags(m: EntryMap) {
    forall k :: k in m ==> KnownTag(m[k].tag)
  }

  /** A map of known tags has one listing. */
  lemma ListingUnique(a: seq<Entry>, b: seq<Entry>, m: EntryMap)
    requires Lists(a, m) && Lists(b, m) && KnownTags(m)
    ensures a == b
  {
    DistinctSameMembers(a, b);
    KeysSeparate(a, m);
    SortedUnique(EntryLeq, a, b);
  }

  lemma KeysSeparate(list: seq<Entry>, m: EntryMap)
    requires KnownTags(m) && forall e :: e in list ==> Holds(m, e)
    ensures Separates(EntryLeq, list)
  {
    forall x, y | x in list && y in list && EntryLeq(x, y) && EntryLeq(y, x) ensures x == y {
      assert KnownTag(m[KeyOf(x)].tag) && KnownTag(m[KeyOf(y)].tag);
    }
  }

  /** entriesFromMap, whatever order the map is read in. */
  method EntriesFromMap(raw: EntryMap) returns (list: seq<Entry>)
    requires WellKeyed(raw)
    ensures Lists(list, raw)
  {
    list := [];
    var unread := raw.Keys;
    while unread != {}
      invariant unread <= raw.Keys && Distinct(list)
      invariant forall e :: e in list <==> Holds(raw, e) && KeyOf(e) !in unread
      decreases |unread|
    {
      var key :| key in unread;
      var e := raw[key];
      assert KeyOf(e) == key && e !in list;
      assert Distinct(list + [e]);
      assert forall x :: x in list + [e] <==> x in list || x == e;
      list := list + [e];
      unread := unread - {key};
    }
    ListSorted(list, raw);
    list := SortEntries(list);
  }

  lemma ListSorted(list: seq<Entry>, m: EntryMap)
    requires Distinct(list) && forall e :: e in list <==> Holds(m, e)
    ensures Lists(SortEntries(list), m)
  {
    EntryOrder();
    SortIsSorted(EntryLeq, list);
    SortMembers(EntryLeq, list);
    DistinctCounts(list);
    DistinctCounts(SortEntries(list));
    hide Distinct, Sorted, SortEntries;
  }

  // ---------------------------------------------------------------- collecting

  predicate AllParse(texts: seq<string>) {
    forall i :: 0 <= i < |texts| ==> ParseTextEntry(texts[i]).Ok?
  }

  /** The last entry for each key among the default or the other texts, on top of a base map. */
  function Collect(base: EntryMap, texts: seq<string>, defaults: bool): EntryMap {
    if texts == [] then base
    else
      var front := Collect(base, texts[..|texts| - 1], defaults);
      var last := ParseTextEntry(texts[|texts| - 1]);
      if last.Ok? && last.value.isDefault == defaults then front[KeyOf(last.value.entry) := last.value.entry] else front
  }

  lemma CollectSnoc(base: EntryMap, texts: seq<string>, text: string, defaults: bool)
    requires ParseTextEntry(text).Ok?
    ensures var t := ParseTextEntry(text).value;
            Collect(base, texts + [text], defaults) ==
            if t.isDefault == defaults then Collect(base, texts, defaults)[KeyOf(t.entry) := t.entry] else Collect(base, texts, defaults)
  {
    hide ParseTextEntry;
    assert (texts + [text])[..|texts|] == texts;
  }

  /** The text says the entry, for the default or the other list. */
  predicate Says(text: string, defaults: bool, e: Entry) {
    ParseTextEntry(text) == Ok(TextEntry(defaults, e))
  }

  /** The text is about the key. */
  predicate About(text: string, defaults: bool, key: Key) {
    var t := ParseTextEntry(text);
    t.Ok? && t.value.isDefault == defaults && KeyOf(t.value.entry) == key
  }

  predicate Mentioned(texts: seq<string>, defaults: bool, key: Key) {
    exists i :: 0 <= i < |texts| && About(texts[i], defaults, key)
  }

  /** The last text about the entry's key says the entry. */
  predicate SaidLast(texts: seq<string>, defaults: bool, e: Entry) {
    exists i :: 0 <= i < |texts| && Says(texts[i], defaults, e) && !Mentioned(texts[i + 1..], defaults, KeyOf(e))
  }

  lemma MentionedSnoc(texts: seq<string>, text: string, defaults: bool, key: Key)
    ensures Mentioned(texts + [text], defaults, key) <==> Mentioned(texts, defaults, key) || About(text, defaults, key)
  {
    hide About;
    var all := texts + [text];
    assert all[|texts|] == text;
    if Mentioned(texts, defaults, key) {
      var i :| 0 <= i < |texts| && About(texts[i], defaults, key);
      assert all[i] == texts[i];
    }
  }

  lemma SaidLastSnoc(texts: seq<string>, text: string, defaults: bool, e: Entry)
    ensures SaidLast(texts + [text], defaults, e) <==>
            Says(text, defaults, e) || (SaidLast(texts, defaults, e) && !About(text, defaults, KeyOf(e)))
  {
    hide Says, About, KeyOf;
    var all := texts + [text];
    forall i | 0 <= i < |texts|
      ensures all[i] == texts[i]
      ensures Mentioned(all[i + 1..], defaults, KeyOf(e)) <==>
              Mentioned(texts[i + 1..], defaults, KeyOf(e)) || About(text, defaults, KeyOf(e))
    {
      assert all[i + 1..] == texts[i + 1..] + [text];
      MentionedSnoc(texts[i + 1..], text, defaults, KeyOf(e));
    }
    assert all[|texts|] == text && all[|texts| + 1..] == [];
    assert !Mentioned([], defaults, KeyOf(e));
    hide Mentioned;
  }

  /** Collecting means: the last text about a key wins, and the base stands where no text speaks. */
  lemma {:induction false} CollectMeans(base: EntryMap, texts: seq<string>, defaults: bool, e: Entry)
    requires WellKeyed(base)
    ensures WellKeyed(Collect(base, texts, defaults))
    ensures Holds(Collect(base, texts, defaults), e) <==>
            SaidLast(texts, defaults, e) || (!Mentioned(texts, defaults, KeyOf(e)) && Holds(base, e))
    decreases texts
  {
    hide ParseTextEntry;
    if texts != [] {
      var front, last := texts[..|texts| - 1], texts[|texts| - 1];
      assert texts == front + [last];
      CollectMeans(base, front, defaults, e);
      SaidLastSnoc(front, last, defaults, e);
      MentionedSnoc(front, last, defaults, KeyOf(e));
      hide SaidLast, Mentioned;
    }
  }

  /** What a parsed entry can be. */
  lemma ParsedEntry(text: string)
    requires ParseTextEntry(text).Ok?
    ensures Printable(ParseTextEntry(text).value.entry)
  {
    hide Trim, Split, Lower, ParseID;
  }

  predicate AllPrintable(m: EntryMap) {
    forall k :: k in m ==> KeyOf(m[k]) == k && Printable(m[k])
  }

  lemma {:induction false} CollectPrintable(base: EntryMap, texts: seq<string>, defaults: bool)
    requires AllPrintable(base)
    ensures AllPrintable(Collect(base, texts, defaults))
  {
    hide ParseTextEntry, Printable;
    if texts != [] {
      CollectPrintable(base, texts[..|texts| - 1], defaults);
      if ParseTextEntry(texts[|texts| - 1]).Ok? { ParsedEntry(texts[|texts| - 1]); }
    }
  }

  lemma PrintableIsKnown(m: EntryMap)
    requires AllPrintable(m)
    ensures KnownTags(m) && WellKeyed(m)
  {
  }

  // ---------------------------------------------------------------- ParseTextEntries

  /** The map lists no valid ACL. */
  ghost predicate Spoiled(m: EntryMap) {
    exists list :: Lists(list, m) && !ValidACL(list)
  }

  method ParseTextEntries(texts: seq<string>) returns (r: Result<(seq<Entry>, seq<Entry>), TextError>)
    ensures r.Ok? ==> AllParse(texts) && ValidACL(r.value.0) && ValidACL(r.value.1)
    ensures r.Ok? ==> Lists(r.value.0, Collect(map[], texts, false)) && Lists(r.value.1, Collect(map[], texts, true))
    ensures r.Err? ==> !AllParse(texts) || Spoiled(Collect(map[], texts, false)) || Spoiled(Collect(map[], texts, true))
  {
    hide ParseTextEntry, ValidACL, Lists;
    if |texts| == 0 {
      EmptyListing();
      return Ok(([], []));
    }
    var accessSet: EntryMap, defaultSet: EntryMap := map[], map[];
    for i := 0 to |texts|
      invariant AllParse(texts[..i])
      invariant accessSet == Collect(map[], texts[..i], false) && defaultSet == Collect(map[], texts[..i], true)
    {
      var parsed := ParseTextEntry(texts[i]);
      if parsed.Err? {
        return Err(parsed.error);
      }
      assert texts[..i + 1] == texts[..i] + [texts[i]];
      CollectSnoc(map[], texts[..i], texts[i], false);
      CollectSnoc(map[], texts[..i], texts[i], true);
      var key := KeyOf(parsed.value.entry);
      if parsed.value.isDefault {
        defaultSet := defaultSet[key := parsed.value.entry];
        continue;
      }
      accessSet := accessSet[key := parsed.value.entry];
    }
    assert texts[..|texts|] == texts;
    CollectPrintable(map[], texts, false);
    CollectPrintable(map[], texts, true);
    PrintableIsKnown(accessSet);
    PrintableIsKnown(defaultSet);
    var access := EntriesFromMap(accessSet);
    var defaults := EntriesFromMap(defaultSet);
    var error := Validate(access);
    if error.Some? {
      return Err(InvalidACL(error.value));
    }
    error := Validate(defaults);
    if error.Some? {
      return Err(InvalidACL(error.value));
    }
    return Ok((access, defaults));
  }

  lemma EmptyListing()
    ensures Lists([], map[]) && ValidACL([])
  {
  }

  // ---------------------------------------------------------------- FormatTextEntries

  function Formatted(entries: seq<Entry>, isDefault: bool): (texts: seq<string>)
    ensures |texts| == |entries|
  {
    seq(|entries|, i requires 0 <= i < |entries| => FormatTextEntry(isDefault, entries[i]))
  }

  method FormatTextEntries(access: seq<Entry>, defaults: seq<Entry>) returns (result: seq<string>)
    ensures result == Formatted(SortEntries(access), false) + Formatted(SortEntries(defaults), true)
  {
    hide FormatTextEntry, SortEntries;
    result := [];
    var sorted := SortEntries(access);
    for i := 0 to |sorted|
      invariant result == Formatted(sorted[..i], false)
    {
      result := result + [FormatTextEntry(false, sorted[i])];
    }
    assert sorted[..|sorted|] == sorted;
    ghost var printed := result;
    var sortedDefaults := SortEntries(defaults);
    for i := 0 to |sortedDefaults|
      invariant result == printed + Formatted(sortedDefaults[..i], true)
    {
      result := result + [FormatTextEntry(true, sortedDefaults[i])];
      assert Formatted(sortedDefaults[..i + 1], true) == Formatted(sortedDefaults[..i], true) + [FormatTextEntry(true, sortedDefaults[i])];
    }
    assert sortedDefaults[..|sortedDefaults|] == sortedDefaults;
  }

  function MapOf(entries: seq<Entry>): EntryMap {
    if entries == [] then map[] else MapOf(entries[..|entries| - 1])[KeyOf(entries[|entries| - 1]) := entries[|entries| - 1]]
  }

  ghost predicate AllPrintableList(entries: seq<Entry>) {
    forall e :: e in entries ==> Printable(e)
  }

  lemma {:induction false} CollectConcat(base: EntryMap, a: seq<string>, b: seq<string>, defaults: bool)
    ensures Collect(base, a + b, defaults) == Collect(Collect(base, a, defaults), b, defaults)
  {
    hide ParseTextEntry;
    if b == [] {
      assert a + b == a;
    } else {
      assert (a + b)[..|a + b| - 1] == a + b[..|b| - 1];
      CollectConcat(base, a, b[..|b| - 1], defaults);
    }
  }

  /** Collecting printed entries of one kind. */
  lemma {:induction false} CollectFormatted(base: EntryMap, entries: seq<Entry>, isDefault: bool, defaults: bool)
    requires AllPrintableList(entries)
    ensures AllParse(Formatted(entries, isDefault))
    ensures Collect(base, Formatted(entries, isDefault), defaults) == if isDefault == defaults then base + MapOf(entries) else base
  {
    hide ParseTextEntry, FormatTextEntry, Printable;
    if entries == [] {
      assert base + map[] == base;
    } else {
      var front, last := entries[..|entries| - 1], entries[|entries| - 1];
      assert last in entries;
      CollectFormatted(base, front, isDefault, defaults);
      EntryRoundTrip(isDefault, last);
      assert Formatted(entries, isDefault) == Formatted(front, isDefault) + [FormatTextEntry(isDefault, last)];
      CollectSnoc(base, Formatted(front, isDefault), FormatTextEntry(isDefault, last), defaults);
      assert base + MapOf(entries) == (base + MapOf(front))[KeyOf(last) := last];
    }
  }

  /** A duplicate-free list is recovered from its map. */
  lemma {:induction false} MapHolds(entries: seq<Entry>)
    requires UniqueKeys(entries)
    ensures forall e :: e in entries <==> Holds(MapOf(entries), e)
    ensures forall k :: k in MapOf(entries) ==> exists e :: e in entries && KeyOf(e) == k
  {
    if entries != [] {
      var front, last := entries[..|entries| - 1], entries[|entries| - 1];
      assert entries == front + [last] && last in entries;
      assert UniqueKeys(front);
      MapHolds(front);
      forall e | e in front ensures KeyOf(e) != KeyOf(last) {
        assert e in entries;
        assert SameKey(e, last) ==> e == last;
        LastNotInFront(entries);
      }
      assert forall e :: e in entries <==> e in front || e == last;
    }
  }

  lemma LastNotInFront(entries: seq<Entry>)
    requires entries != [] && Distinct(entries)
    ensures entries[|entries| - 1] !in entries[..|entries| - 1]
  {
  }

  lemma SortedListing(entries: seq<Entry>)
    requires UniqueKeys(entries)
    ensures Lists(SortEntries(entries), MapOf(SortEntries(entries)))
  {
    EntryOrder();
    SortIsSorted(EntryLeq, entries);
    SortMembers(EntryLeq, entries);
    DistinctCounts(entries);
    DistinctCounts(SortEntries(entries));
    hide Distinct, Sorted, SortEntries;
    assert UniqueKeys(SortEntries(entries));
    MapHolds(SortEntries(entries));
  }

  lemma ValidIsPrintable(entries: seq<Entry>)
    requires ValidACL(entries)
    ensures AllPrintableList(SortEntries(entries)) && UniqueKeys(entries)
  {
    EntryOrder();
    SortMembers(EntryLeq, entries);
  }

  lemma {:induction false} MapOfPrintable(entries: seq<Entry>)
    requires AllPrintableList(entries)
    ensures AllPrintable(MapOf(entries))
  {
    hide Printable;
    if entries != [] {
      assert entries[|entries| - 1] in entries;
      MapOfPrintable(entries[..|entries| - 1]);
    }
  }

  /** What the printed form of two valid lists collects to. */
  lemma PrintedCollects(access: seq<Entry>, defaults: seq<Entry>, isDefault: bool)
    requires ValidACL(access) && ValidACL(defaults)
    ensures var texts := Formatted(SortEntries(access), false) + Formatted(SortEntries(defaults), true);
            AllParse(texts)
            && Collect(map[], texts, isDefault) == MapOf(SortEntries(if isDefault then defaults else access))
  {
    ValidIsPrintable(access);
    ValidIsPrintable(defaults);
    hide *;
    BothCollected(SortEntries(access), SortEntries(defaults), isDefault);
  }

  lemma BothCollected(a: seq<Entry>, d: seq<Entry>, isDefault: bool)
    requires AllPrintableList(a) && AllPrintableList(d)
    ensures AllParse(Formatted(a, false) + Formatted(d, true))
    ensures Collect(map[], Formatted(a, false) + Formatted(d, true), isDefault) == MapOf(if isDefault then d else a)
  {
    hide AllPrintableList, MapOf, Collect, ParseTextEntry, FormatTextEntry;
    CollectFormatted(map[], a, false, isDefault);
    CollectConcat(map[], Formatted(a, false), Formatted(d, true), isDefault);
    CollectFormatted(Collect(map[], Formatted(a, false), isDefault), d, true, isDefault);
    assert map[] + MapOf(a) == MapOf(a) && map[] + MapOf(d) == MapOf(d);
  }

  /** Printing two valid lists and parsing the texts gives both back in canonical order. */
  method TextRoundTrip(access: seq<Entry>, defaults: seq<Entry>) returns (r: Result<(seq<Entry>, seq<Entry>), TextError>)
    requires ValidACL(access) && ValidACL(defaults)
    ensures r == Ok((SortEntries(access), SortEntries(defaults)))
  {
    hide ValidACL, UniqueKeys, AllPrintableList, Lists, SortEntries;
    PrintedCollects(access, defaults, false);
    PrintedCollects(access, defaults, true);
    OneListing(access);
    OneListing(defaults);
    var texts := FormatTextEntries(access, defaults);
    r := ParseTextEntries(texts);
  }

  /** The canonical form of a valid list is the one listing of its map, and valid. */
  lemma OneListing(entries: seq<Entry>)
    requires ValidACL(entries)
    ensures forall list :: Lists(list, MapOf(SortEntries(entries))) ==> list == SortEntries(entries)
    ensures ValidACL(SortEntries(entries))
  {
    ValidIsPrintable(entries);
    SortValid(entries);
    SortedListing(entries);
    MapOfPrintable(SortEntries(entries));
    PrintableIsKnown(MapOf(SortEntries(entries)));
    hide ValidACL, Lists, SortEntries, MapOf;
    var m := MapOf(SortEntries(entries));
    forall list | Lists(list, m) ensures list == SortEntries(entries) {
      ListingUnique(list, SortEntries(entries), m);
    }
  }
}
