/**
  metadata_linux.go's `resolveACLEntries`: text entries on top of the entries the mode implies,
  a mask added where POSIX asks for one (acl_calc_mask, section 23.4.2 of IEEE Std 1003.1e
  draft 17).
 */
module AclResolve {
  import opened Wrappers
  import opened Sorting
  import opened Acl
  import opened AclText
  import opened AclLists

  // ---------------------------------------------------------------- permission sets

  /** Bitwise or. */
  function Or(a: nat, b: nat): nat {
    if a == 0 && b == 0 then 0
    else 2 * Or(a / 2, b / 2) + if a % 2 == 1 || b % 2 == 1 then 1 else 0
  }

  /** Every permission of `a` is in `b`. */
  predicate Subset(a: nat, b: nat) {
    a == 0 || (a % 2 <= b % 2 && Subset(a / 2, b / 2))
  }

  lemma {:induction false} OrContains(a: nat, b: nat)
    ensures Subset(a, Or(a, b)) && Subset(b, Or(a, b))
  {
    if a != 0 || b != 0 {
      OrContains(a / 2, b / 2);
      assert Or(a, b) / 2 == Or(a / 2, b / 2);
    }
  }

  lemma {:induction false} OrIsLeast(a: nat, b: nat, c: nat)
    requires Subset(a, c) && Subset(b, c)
    ensures Subset(Or(a, b), c)
    decreases a + b
  {
    if a != 0 || b != 0 {
      OrIsLeast(a / 2, b / 2, c / 2);
      assert Or(a, b) / 2 == Or(a / 2, b / 2);
    }
  }

  lemma {:induction false} SubsetTransitive(a: nat, b: nat, c: nat)
    requires Subset(a, b) && Subset(b, c)
    ensures Subset(a, c)
  {
    if a != 0 { SubsetTransitive(a / 2, b / 2, c / 2); }
  }

  lemma {:induction false} SubsetIsBounded(a: nat, b: nat)
    requires Subset(a, b)
    ensures a <= b
  {
    if a != 0 { SubsetIsBounded(a / 2, b / 2); }
  }

  lemma SubsetAntisymmetric(a: nat, b: nat)
    requires Subset(a, b) && Subset(b, a)
    ensures a == b
  {
    SubsetIsBounded(a, b);
    SubsetIsBounded(b, a);
  }

  lemma SubsetOfAll(a: nat)
    requires a <= 7
    ensures Subset(a, 7)
  {
    assert Subset(a / 8, 0);
    assert Subset(a / 4, 1);
    assert Subset(a / 2, 3);
  }

  // ---------------------------------------------------------------- the mask

  /** The file group class: the owning group and every named entry. */
  predicate GroupClass(e: Entry) {
    e.tag == GROUP_OBJ || Named(e)
  }

  /** The smallest permission set that contains every group-class entry. */
  ghost predicate LeastMask(perm: nat, m: EntryMap) {
    && (forall e :: Holds(m, e) && GroupClass(e) ==> Subset(e.perm, perm))
    && (forall p: nat :: (forall e :: Holds(m, e) && GroupClass(e) ==> Subset(e.perm, p)) ==> Subset(perm, p))
  }

  /** There is only one such set. */
  lemma LeastMaskUnique(p: nat, q: nat, m: EntryMap)
    requires LeastMask(p, m) && LeastMask(q, m)
    ensures p == q
  {
    SubsetAntisymmetric(p, q);
  }

  ghost predicate ContainsClass(perm: nat, entries: seq<Entry>) {
    forall e :: e in entries && GroupClass(e) ==> Subset(e.perm, perm)
  }

  ghost predicate LeastFor(perm: nat, entries: seq<Entry>) {
    ContainsClass(perm, entries) && forall p: nat :: ContainsClass(p, entries) ==> Subset(perm, p)
  }

  lemma LeastSnoc(perm: nat, entries: seq<Entry>, e: Entry)
    requires LeastFor(perm, entries)
    ensures LeastFor(if GroupClass(e) then Or(perm, e.perm) else perm, entries + [e])
  {
    var all := entries + [e];
    assert forall x :: x in all <==> x in entries || x == e;
    forall p: nat | ContainsClass(p, all) ensures ContainsClass(p, entries) {
    }
    if GroupClass(e) {
      OrContains(perm, e.perm);
      forall x | x in all && GroupClass(x) ensures Subset(x.perm, Or(perm, e.perm)) {
        if x in entries { SubsetTransitive(x.perm, perm, Or(perm, e.perm)); }
      }
      forall p: nat | ContainsClass(p, all) ensures Subset(Or(perm, e.perm), p) {
        assert e in all;
        OrIsLeast(perm, e.perm, p);
      }
    }
  }

  lemma LeastIsSmall(perm: nat, entries: seq<Entry>)
    requires LeastFor(perm, entries) && forall e :: e in entries ==> e.perm <= 7
    ensures perm <= 7
  {
    forall e | e in entries ensures Subset(e.perm, 7) { SubsetOfAll(e.perm); }
    assert ContainsClass(7, entries);
    SubsetIsBounded(perm, 7);
  }

  /** deriveACLMask */
  method DeriveMask(entries: seq<Entry>) returns (mask: Entry)
    requires forall e :: e in entries ==> e.perm <= 7
    ensures mask.tag == MASK && mask.id == UNDEFINED_ID && mask.perm <= 7 && LeastFor(mask.perm, entries)
  {
    var perm: nat := 0;
    for i := 0 to |entries|
      invariant LeastFor(perm, entries[..i])
    {
      hide LeastFor;
      assert entries[..i + 1] == entries[..i] + [entries[i]];
      LeastSnoc(perm, entries[..i], entries[i]);
      if GroupClass(entries[i]) {
        perm := Or(perm, entries[i].perm);
      }
    }
    assert entries[..|entries|] == entries;
    LeastIsSmall(perm, entries);
    mask := Entry(MASK, perm, UNDEFINED_ID);
  }

  const MASK_KEY: Key := (MASK, UNDEFINED_ID)

  ghost predicate HasNamed(m: EntryMap) {
    exists e :: Holds(m, e) && Named(e)
  }

  /** The map with a mask where one is needed: the least one, and only then. */
  ghost predicate Masked(m: EntryMap, next: EntryMap) {
    if HasNamed(m) && MASK_KEY !in m then
      exists perm: nat :: perm <= 7 && LeastMask(perm, m) && next == m[MASK_KEY := Entry(MASK, perm, UNDEFINED_ID)]
    else next == m
  }

  lemma LeastAcrossListing(perm: nat, list: seq<Entry>, m: EntryMap)
    requires LeastFor(perm, list) && forall e :: e in list <==> Holds(m, e)
    ensures LeastMask(perm, m)
  {
    forall p: nat | forall e :: Holds(m, e) && GroupClass(e) ==> Subset(e.perm, p) ensures Subset(perm, p) {
      assert ContainsClass(p, list);
    }
  }

  /** canonicalizeACLEntries */
  method Canonicalize(raw: EntryMap) returns (list: seq<Entry>, ghost masked: EntryMap)
    requires AllPrintable(raw)
    ensures Masked(raw, masked) && Lists(list, masked) && AllPrintable(masked)
    ensures exists m :: Masked(raw, m) && Lists(list, m)
  {
    PrintableIsKnown(raw);
    var entries := EntriesFromMap(raw);
    var named, mask := false, false;
    for i := 0 to |entries|
      invariant named <==> exists k :: 0 <= k < i && Named(entries[k])
      invariant mask <==> exists k :: 0 <= k < i && entries[k].tag == MASK
    {
      named := named || Named(entries[i]);
      mask := mask || entries[i].tag == MASK;
    }
    Scanned(entries, raw);
    if named && !mask {
      forall e | e in entries ensures e.perm <= 7 { assert Holds(raw, e) && Printable(raw[KeyOf(e)]); }
      var derived := DeriveMask(entries);
      LeastAcrossListing(derived.perm, entries, raw);
      hide LeastFor, LeastMask, Lists;
      masked := raw[MASK_KEY := derived];
      assert derived.perm <= 7 && LeastMask(derived.perm, raw) && masked == raw[MASK_KEY := Entry(MASK, derived.perm, UNDEFINED_ID)];
      PrintableIsKnown(masked);
      list := EntriesFromMap(raw[KeyOf(derived) := derived]);
      return;
    }
    masked := raw;
    list := SortEntries(entries);
    EntryOrder();
    SortFixpoint(EntryLeq, entries);
  }

  /** What the two scans find. */
  lemma Scanned(entries: seq<Entry>, m: EntryMap)
    requires AllPrintable(m) && Lists(entries, m)
    ensures (exists k :: 0 <= k < |entries| && Named(entries[k])) <==> HasNamed(m)
    ensures (exists k :: 0 <= k < |entries| && entries[k].tag == MASK) <==> MASK_KEY in m
  {
    if HasNamed(m) {
      var e :| Holds(m, e) && Named(e);
      assert e in entries;
    }
    if exists k :: 0 <= k < |entries| && Named(entries[k]) {
      var k :| 0 <= k < |entries| && Named(entries[k]);
      assert entries[k] in entries && Holds(m, entries[k]);
    }
    if MASK_KEY in m {
      var e := m[MASK_KEY];
      assert KeyOf(e) == MASK_KEY && Holds(m, e) && e in entries;
    }
    if exists k :: 0 <= k < |entries| && entries[k].tag == MASK {
      var k :| 0 <= k < |entries| && entries[k].tag == MASK;
      assert entries[k] in entries && Holds(m, entries[k]) && Printable(m[KeyOf(entries[k])]);
    }
  }

  // ---------------------------------------------------------------- base entries

  /** newACLBaseMap over AccessEntriesFromMode */
  function BaseMap(mode: nat): EntryMap {
    map[(USER_OBJ, UNDEFINED_ID) := Entry(USER_OBJ, mode / 64 % 8, UNDEFINED_ID),
        (GROUP_OBJ, UNDEFINED_ID) := Entry(GROUP_OBJ, mode / 8 % 8, UNDEFINED_ID),
        (OTHER, UNDEFINED_ID) := Entry(OTHER, mode % 8, UNDEFINED_ID)]
  }

  lemma BaseIsPrintable(mode: nat)
    ensures AllPrintable(BaseMap(mode))
  {
  }

  lemma BaseHasNoUndefined(mode: nat)
    ensures !HoldsUndefined(BaseMap(mode))
  {
  }

  lemma {:induction false} BaseKeysStay(base: EntryMap, texts: seq<string>, defaults: bool)
    ensures base.Keys <= Collect(base, texts, defaults).Keys
  {
    hide ParseTextEntry;
    if texts != [] { BaseKeysStay(base, texts[..|texts| - 1], defaults); }
  }

  /** A named text entry with the reserved id. */
  predicate Undefined(text: string, defaults: bool) {
    var t := ParseTextEntry(text);
    t.Ok? && t.value.isDefault == defaults && Named(t.value.entry) && t.value.entry.id == UNDEFINED_ID
  }

  predicate AnyUndefined(texts: seq<string>, defaults: bool) {
    exists i :: 0 <= i < |texts| && Undefined(texts[i], defaults)
  }

  ghost predicate HoldsUndefined(m: EntryMap) {
    (USER, UNDEFINED_ID) in m || (GROUP, UNDEFINED_ID) in m
  }

  /** The reserved id ends up in the map exactly when some text names it. */
  lemma {:induction false} UndefinedCollected(base: EntryMap, texts: seq<string>, defaults: bool)
    requires !HoldsUndefined(base)
    ensures HoldsUndefined(Collect(base, texts, defaults)) <==> AnyUndefined(texts, defaults)
  {
    hide ParseTextEntry;
    if texts != [] {
      var front, last := texts[..|texts| - 1], texts[|texts| - 1];
      UndefinedCollected(base, front, defaults);
      assert AnyUndefined(texts, defaults) <==> AnyUndefined(front, defaults) || Undefined(last, defaults) by {
        AnySnoc(front, last, defaults);
        assert texts == front + [last];
      }
    }
  }

  lemma AnySnoc(texts: seq<string>, text: string, defaults: bool)
    ensures AnyUndefined(texts + [text], defaults) <==> AnyUndefined(texts, defaults) || Undefined(text, defaults)
  {
    hide Undefined;
    var all := texts + [text];
    assert all[|texts|] == text;
    if AnyUndefined(texts, defaults) {
      var i :| 0 <= i < |texts| && Undefined(texts[i], defaults);
      assert all[i] == texts[i];
    }
  }

  /** A masked map over the base entries lists a valid ACL unless it holds the reserved id. */
  lemma MaskedIsValid(m: EntryMap, masked: EntryMap, list: seq<Entry>, mode: nat)
    requires AllPrintable(m) && AllPrintable(masked) && BaseMap(mode).Keys <= m.Keys
    requires Masked(m, masked) && Lists(list, masked)
    ensures list != []
    ensures ValidACL(list) <==> !HoldsUndefined(m)
  {
    KeysListed(masked, list, USER_OBJ);
    KeysListed(masked, list, GROUP_OBJ);
    KeysListed(masked, list, OTHER);
    MaskWhenNamed(m, masked, list);
    assert UniqueKeys(list);
    assert HoldsUndefined(masked) <==> HoldsUndefined(m);
    hide Masked, Lists, AllPrintable, UniqueKeys;
    EntriesOk(masked, list);
  }

  lemma KeysListed(m: EntryMap, list: seq<Entry>, tag: U16)
    requires AllPrintable(m) && Lists(list, m)
    ensures (tag, UNDEFINED_ID) in m ==> Has(list, tag)
  {
    if (tag, UNDEFINED_ID) in m {
      var e := m[(tag, UNDEFINED_ID)];
      assert KeyOf(e) == (tag, UNDEFINED_ID) && Holds(m, e) && e in list;
    }
  }

  lemma MaskWhenNamed(m: EntryMap, masked: EntryMap, list: seq<Entry>)
    requires AllPrintable(masked) && Masked(m, masked) && Lists(list, masked)
    ensures Has(list, USER) || Has(list, GROUP) ==> Has(list, MASK)
    ensures m.Keys <= masked.Keys
  {
    if Has(list, USER) || Has(list, GROUP) {
      var e :| e in list && Named(e);
      assert Holds(masked, e);
      assert Holds(m, e);
      assert MASK_KEY in masked;
      KeysListed(masked, list, MASK);
    }
  }

  lemma EntriesOk(m: EntryMap, list: seq<Entry>)
    requires AllPrintable(m) && Lists(list, m)
    ensures (forall e :: e in list ==> EntryOk(e)) <==> !HoldsUndefined(m)
  {
    forall e | e in list ensures Holds(m, e) && Printable(e) {
      assert Printable(m[KeyOf(e)]);
    }
    if HoldsUndefined(m) {
      var k: Key := if (USER, UNDEFINED_ID) in m then (USER, UNDEFINED_ID) else (GROUP, UNDEFINED_ID);
      assert KeyOf(m[k]) == k && Holds(m, m[k]) && m[k] in list && !EntryOk(m[k]);
    } else {
      forall e | e in list ensures EntryOk(e) {
        assert KeyOf(e) in m;
      }
    }
  }

  // ---------------------------------------------------------------- resolveACLEntries

  predicate AnyDefault(texts: seq<string>) {
    exists i :: 0 <= i < |texts| && ParseTextEntry(texts[i]).Ok? && ParseTextEntry(texts[i]).value.isDefault
  }

  lemma AnyDefaultSnoc(texts: seq<string>, text: string)
    requires ParseTextEntry(text).Ok?
    ensures AnyDefault(texts + [text]) <==> AnyDefault(texts) || ParseTextEntry(text).value.isDefault
  {
    hide ParseTextEntry;
    var all := texts + [text];
    assert all[|texts|] == text;
    if AnyDefault(texts) {
      var i :| 0 <= i < |texts| && ParseTextEntry(texts[i]).Ok? && ParseTextEntry(texts[i]).value.isDefault;
      assert all[i] == texts[i];
    }
  }

  /** Without default texts nothing is collected for the default list. */
  lemma {:induction false} NoDefaultsNothing(base: EntryMap, texts: seq<string>)
    requires !AnyDefault(texts)
    ensures Collect(base, texts, true) == base && !AnyUndefined(texts, true)
  {
    hide ParseTextEntry;
    if texts != [] {
      var front, last := texts[..|texts| - 1], texts[|texts| - 1];
      assert texts[|texts| - 1] == last;
      forall i | 0 <= i < |front| ensures !(ParseTextEntry(front[i]).Ok? && ParseTextEntry(front[i]).value.isDefault) {
        assert front[i] == texts[i];
      }
      NoDefaultsNothing(base, front);
    }
  }

  /** The loop over the texts; the default map is made when the first default entry comes. */
  method CollectMaps(mode: nat, raw: seq<string>) returns (parsed: bool, accessMap: EntryMap, defaultMap: Option<EntryMap>)
    ensures parsed <==> AllParse(raw)
    ensures parsed ==> accessMap == Collect(BaseMap(mode), raw, false) && (defaultMap.Some? <==> AnyDefault(raw))
    ensures parsed && defaultMap.Some? ==> defaultMap.value == Collect(BaseMap(mode), raw, true)
  {
    hide ParseTextEntry;
    accessMap, defaultMap := BaseMap(mode), None;
    for i := 0 to |raw|
      invariant AllParse(raw[..i])
      invariant accessMap == Collect(BaseMap(mode), raw[..i], false)
      invariant defaultMap.Some? <==> AnyDefault(raw[..i])
      invariant defaultMap.Some? ==> defaultMap.value == Collect(BaseMap(mode), raw[..i], true)
    {
      var text := ParseTextEntry(raw[i]);
      if text.Err? {
        return false, accessMap, defaultMap;
      }
      assert raw[..i + 1] == raw[..i] + [raw[i]];
      CollectSnoc(BaseMap(mode), raw[..i], raw[i], false);
      CollectSnoc(BaseMap(mode), raw[..i], raw[i], true);
      AnyDefaultSnoc(raw[..i], raw[i]);
      hide Collect, AnyDefault;
      var key := KeyOf(text.value.entry);
      if text.value.isDefault {
        if defaultMap.None? {
          NoDefaultsNothing(BaseMap(mode), raw[..i]);
          defaultMap := Some(BaseMap(mode));
        }
        defaultMap := Some(defaultMap.value[key := text.value.entry]);
        continue;
      }
      accessMap := accessMap[key := text.value.entry];
    }
    assert raw[..|raw|] == raw;
    parsed := true;
  }

  /** Canonical form and validation of one of the two maps. */
  method ResolveMap(mode: nat, raw: seq<string>, defaults: bool, m: EntryMap)
      returns (list: seq<Entry>, ok: bool, ghost masked: EntryMap)
    requires m == Collect(BaseMap(mode), raw, defaults)
    ensures ok <==> !AnyUndefined(raw, defaults)
    ensures Masked(m, masked) && Lists(list, masked) && list != []
    ensures ok ==> ValidACL(list)
  {
    hide *;
    BaseIsPrintable(mode);
    CollectPrintable(BaseMap(mode), raw, defaults);
    BaseKeysStay(BaseMap(mode), raw, defaults);
    BaseHasNoUndefined(mode);
    UndefinedCollected(BaseMap(mode), raw, defaults);
    list, masked := Canonicalize(m);
    MaskedIsValid(m, masked, list, mode);
    var error := Validate(list);
    ok := error.None?;
  }

  /** The list is the canonical form of what the texts say on top of the mode, masked if need be. */
  ghost predicate Resolves(list: seq<Entry>, mode: nat, raw: seq<string>, defaults: bool) {
    exists masked :: Masked(Collect(BaseMap(mode), raw, defaults), masked) && Lists(list, masked)
  }

  /** The three permission digits of a mode. */
  predicate ModeDigits(mode: nat, u: nat, g: nat, o: nat) {
    u < 8 && g < 8 && o < 8 && 64 * u + 8 * g + o == mode % 512
  }

  /** One of the three entries a mode stands for. */
  predicate FromDigits(u: nat, g: nat, o: nat, e: Entry) {
    e.id == UNDEFINED_ID
    && ((e.tag == USER_OBJ && e.perm == u) || (e.tag == GROUP_OBJ && e.perm == g) || (e.tag == OTHER && e.perm == o))
  }

  /** The mask of a list that has named entries and was given none: the least that covers its group class. */
  ghost predicate IsDerivedMask(e: Entry, list: seq<Entry>, raw: seq<string>, defaults: bool) {
    && e.tag == MASK && e.id == UNDEFINED_ID && !Mentioned(raw, defaults, MASK_KEY)
    && (exists n: Entry :: n in list && Named(n)) && LeastFor(e.perm, list)
  }

  /**
    What a resolved list holds, and nothing else: what the last text about a key says, the mode's
    digits for the owner, group and others where no text speaks, and a derived mask.
   */
  ghost predicate ListMeans(list: seq<Entry>, mode: nat, raw: seq<string>, defaults: bool) {
    exists u: nat, g: nat, o: nat :: ModeDigits(mode, u, g, o) && ListHolds(list, u, g, o, raw, defaults)
  }

  ghost predicate ListHolds(list: seq<Entry>, u: nat, g: nat, o: nat, raw: seq<string>, defaults: bool) {
    forall e :: e in list <==>
      || SaidLast(raw, defaults, e)
      || (FromDigits(u, g, o, e) && !Mentioned(raw, defaults, KeyOf(e)))
      || IsDerivedMask(e, list, raw, defaults)
  }

  lemma BySixtyFours(n: nat, q: nat, r: nat)
    requires n == 64 * q + r && r < 64
    ensures n / 64 == q
  {
  }

  lemma By512(n: nat, q: nat, r: nat)
    requires n == 512 * q + r && r < 512
    ensures n % 512 == r
  {
  }

  lemma DigitsOfMode(mode: nat)
    ensures ModeDigits(mode, mode / 64 % 8, mode / 8 % 8, mode % 8)
  {
    var tens, o := mode / 8, mode % 8;
    var hundreds, g := tens / 8, tens % 8;
    var rest, u := hundreds / 8, hundreds % 8;
    BySixtyFours(mode, hundreds, 8 * g + o);
    By512(mode, rest, 64 * u + 8 * g + o);
  }

  lemma BaseMeans(mode: nat, e: Entry)
    ensures Holds(BaseMap(mode), e) <==> FromDigits(mode / 64 % 8, mode / 8 % 8, mode % 8, e)
    ensures WellKeyed(BaseMap(mode)) && MASK_KEY !in BaseMap(mode)
  {
  }

  lemma {:induction false} KeyCollected(base: EntryMap, raw: seq<string>, defaults: bool, key: Key)
    ensures key in Collect(base, raw, defaults) <==> key in base || Mentioned(raw, defaults, key)
    decreases raw
  {
    hide ParseTextEntry;
    if raw != [] {
      var front, last := raw[..|raw| - 1], raw[|raw| - 1];
      assert raw == front + [last];
      KeyCollected(base, front, defaults, key);
      MentionedSnoc(front, last, defaults, key);
      hide Mentioned;
    }
  }

  /** Adding the mask adds no entry of the group class. */
  lemma ClassUnmasked(m: EntryMap, masked: EntryMap, list: seq<Entry>)
    requires MASK_KEY !in m && Lists(list, masked) && WellKeyed(m)
    requires masked == m || exists perm: nat :: perm <= 7 && masked == m[MASK_KEY := Entry(MASK, perm, UNDEFINED_ID)]
    ensures forall perm: nat :: LeastMask(perm, m) <==> LeastFor(perm, list)
    ensures HasNamed(m) <==> exists n: Entry :: n in list && Named(n)
  {
    forall e: Entry | e.tag != MASK ensures e in list <==> Holds(m, e) {
      assert e in list <==> Holds(masked, e);
    }
    forall perm: nat ensures ContainsClass(perm, list) <==> forall e :: Holds(m, e) && GroupClass(e) ==> Subset(e.perm, perm) {
    }
    hide Lists, Subset;
  }

  lemma ResolvedMeans(list: seq<Entry>, mode: nat, raw: seq<string>, defaults: bool)
    requires Resolves(list, mode, raw, defaults)
    ensures ListMeans(list, mode, raw, defaults)
  {
    var m := Collect(BaseMap(mode), raw, defaults);
    var masked :| Masked(m, masked) && Lists(list, masked);
    var u, g, o := mode / 64 % 8, mode / 8 % 8, mode % 8;
    DigitsOfMode(mode);
    KeyCollected(BaseMap(mode), raw, defaults, MASK_KEY);
    BaseMeans(mode, Entry(OTHER, o, UNDEFINED_ID));
    CollectMeans(BaseMap(mode), raw, defaults, Entry(OTHER, o, UNDEFINED_ID));
    if MASK_KEY !in m { ClassUnmasked(m, masked, list); }
    forall e ensures e in list <==>
      SaidLast(raw, defaults, e) || (FromDigits(u, g, o, e) && !Mentioned(raw, defaults, KeyOf(e))) || IsDerivedMask(e, list, raw, defaults)
    {
      BaseMeans(mode, e);
      CollectMeans(BaseMap(mode), raw, defaults, e);
      hide Collect, BaseMap, SaidLast, Mentioned, ModeDigits, FromDigits, LeastMask, LeastFor, HasNamed;
      ListedMeans(list, m, masked, raw, defaults, e);
    }
    assert ListHolds(list, u, g, o, raw, defaults) by { hide *; hide SaidLast, Mentioned, FromDigits, IsDerivedMask; }
  }

  /** An entry is listed if it is held, or if it is the mask that was missing. */
  lemma ListedMeans(list: seq<Entry>, m: EntryMap, masked: EntryMap, raw: seq<string>, defaults: bool, e: Entry)
    requires Masked(m, masked) && Lists(list, masked) && WellKeyed(m)
    requires MASK_KEY in m <==> Mentioned(raw, defaults, MASK_KEY)
    requires MASK_KEY !in m ==> (forall perm: nat :: LeastMask(perm, m) <==> LeastFor(perm, list))
    requires MASK_KEY !in m ==> (HasNamed(m) <==> exists n: Entry :: n in list && Named(n))
    ensures e in list <==> Holds(m, e) || IsDerivedMask(e, list, raw, defaults)
  {
    hide LeastMask, LeastFor, HasNamed, Mentioned, Named;
    assert e in list <==> Holds(masked, e);
    if HasNamed(m) && MASK_KEY !in m {
      var perm: nat :| perm <= 7 && LeastMask(perm, m) && masked == m[MASK_KEY := Entry(MASK, perm, UNDEFINED_ID)];
      if IsDerivedMask(e, list, raw, defaults) { LeastMaskUnique(perm, e.perm, m); }
    }
  }

  /** Every text parses, and no named entry has the reserved id. */
  predicate Resolvable(raw: seq<string>) {
    raw == [] || (AllParse(raw) && !AnyUndefined(raw, false) && !AnyUndefined(raw, true))
  }

  /**
    resolveACLEntries. A non-empty list resolves exactly when every text parses and none names
    the reserved id; both results are then valid ACLs, and there is a default one exactly when
    some text is a default entry.
   */
  method ResolveACLEntries(mode: nat, raw: seq<string>) returns (r: Option<(seq<Entry>, seq<Entry>)>)
    ensures raw == [] ==> r == Some(([], []))
    ensures r.Some? <==> Resolvable(raw)
    ensures r.Some? ==> ValidACL(r.value.0) && ValidACL(r.value.1)
    ensures r.Some? && raw != [] ==> r.value.0 != [] && Resolves(r.value.0, mode, raw, false)
    ensures r.Some? && raw != [] ==> if AnyDefault(raw) then Resolves(r.value.1, mode, raw, true) else r.value.1 == []
    ensures r.Some? && raw != [] ==> ListMeans(r.value.0, mode, raw, false) && (AnyDefault(raw) ==> ListMeans(r.value.1, mode, raw, true))
  {
    hide ValidACL, Lists, Masked, Collect, AnyUndefined, AllParse, AnyDefault, BaseMap, ListMeans;
    EmptyListing();
    if |raw| == 0 {
      return Some(([], []));
    }
    var parsed, accessMap, defaultMap := CollectMaps(mode, raw);
    if !parsed { return None; }
    var access, ok;
    ghost var masked;
    access, ok, masked := ResolveMap(mode, raw, false, accessMap);
    if !ok { return None; }
    assert Resolves(access, mode, raw, false);
    ResolvedMeans(access, mode, raw, false);
    if defaultMap.None? {
      NoDefaultsNothing(BaseMap(mode), raw);
      return Some((access, []));
    }
    var defaults;
    defaults, ok, masked := ResolveMap(mode, raw, true, defaultMap.value);
    if !ok { return None; }
    assert Resolves(defaults, mode, raw, true);
    ResolvedMeans(defaults, mode, raw, true);
    return Some((access, defaults));
  }
}
