/**
  The lists a manifest keeps in normal form: settings and extended attributes sorted by name,
  capabilities sorted, ACL texts sorted without duplicates (metadata.go's normalizeACLEntries).
  Each has a specification, the loop that computes it, and two laws: normalising twice is
  normalising once, and the order of the input does not matter.
 */
module NormalLists {
  import opened Wrappers
  import opened Strings
  import opened Sorting
  import opened Operations

  datatype Pair<V> = Pair(name: string, value: V)

  // ---------------------------------------------------------------- order and permutation

  lemma StringOrder()
    ensures TotalPreorder(Leq)
  {
    forall a, b ensures Leq(a, b) || Leq(b, a) { LeqTotal(a, b); }
    forall a, b, c | Leq(a, b) && Leq(b, c) ensures Leq(a, c) { LeqTransitive(a, b, c); }
  }

  lemma StringsSeparate(s: seq<string>)
    ensures Separates(Leq, s)
  {
    forall a, b | a in s && b in s && Leq(a, b) && Leq(b, a) ensures a == b { LeqTotal(a, b); }
  }

  predicate PairLeq<V>(a: Pair<V>, b: Pair<V>) {
    Leq(a.name, b.name)
  }

  lemma PairOrder<V(!new)>()
    ensures TotalPreorder<Pair<V>>(PairLeq)
  {
    forall a: Pair<V>, b: Pair<V> ensures PairLeq(a, b) || PairLeq(b, a) { LeqTotal(a.name, b.name); }
    forall a: Pair<V>, b: Pair<V>, c: Pair<V> | PairLeq(a, b) && PairLeq(b, c) ensures PairLeq(a, c) {
      LeqTransitive(a.name, b.name, c.name);
    }
  }

  /** No name twice. */
  ghost predicate UniqueNames<V(!new)>(s: seq<Pair<V>>) {
    Distinct(s) && forall a, b :: a in s && b in s && a.name == b.name ==> a == b
  }

  lemma UniqueSeparates<V(!new)>(s: seq<Pair<V>>)
    requires UniqueNames(s)
    ensures Separates(PairLeq, s)
  {
    forall a, b | a in s && b in s && PairLeq(a, b) && PairLeq(b, a) ensures a == b { LeqTotal(a.name, b.name); }
  }

  lemma SameElements<T(!new)>(a: seq<T>, b: seq<T>)
    requires multiset(a) == multiset(b)
    ensures forall x :: x in a <==> x in b
    ensures |a| == |b| && (Distinct(a) <==> Distinct(b))
  {
    forall x ensures x in a <==> x in b {
      assert x in a <==> x in multiset(a);
      assert x in b <==> x in multiset(b);
    }
    assert |multiset(a)| == |a| && |multiset(b)| == |b|;
    DistinctCounts(a);
    DistinctCounts(b);
    hide Distinct;
  }

  lemma UniquePermutation<V(!new)>(a: seq<Pair<V>>, b: seq<Pair<V>>)
    requires multiset(a) == multiset(b)
    ensures UniqueNames(a) <==> UniqueNames(b)
  {
    SameElements(a, b);
    hide Distinct;
  }

  function Mapped<T, U>(f: T -> U, s: seq<T>): (t: seq<U>)
    ensures |t| == |s| && forall i :: 0 <= i < |s| ==> t[i] == f(s[i])
  {
    seq(|s|, i requires 0 <= i < |s| => f(s[i]))
  }

  function Without<T>(s: seq<T>, k: nat): (t: seq<T>)
    requires k < |s|
    ensures |t| == |s| - 1
  {
    s[..k] + s[k + 1..]
  }

  lemma WithoutOne<T(!new)>(s: seq<T>, k: nat)
    requires k < |s|
    ensures multiset(s) == multiset(Without(s, k)) + multiset{s[k]}
  {
    assert s == s[..k] + [s[k]] + s[k + 1..];
  }

  lemma MappedOne<T(!new), U(!new)>(f: T -> U, s: seq<T>, k: nat)
    requires k < |s|
    ensures multiset(Mapped(f, s)) == multiset(Mapped(f, Without(s, k))) + multiset{f(s[k])}
  {
    assert Mapped(f, Without(s, k)) == Without(Mapped(f, s), k);
    hide Mapped, Without;
    WithoutOne(Mapped(f, s), k);
  }

  /** Mapping keeps permutations. */
  lemma {:induction false} MappedPermutation<T(!new), U(!new)>(f: T -> U, a: seq<T>, b: seq<T>)
    requires multiset(a) == multiset(b)
    ensures multiset(Mapped(f, a)) == multiset(Mapped(f, b))
    decreases |a|
  {
    SameElements(a, b);
    hide Mapped, Without, Distinct;
    if a != [] {
      assert a[0] in b;
      var k :| 0 <= k < |b| && b[k] == a[0];
      WithoutOne(a, 0);
      WithoutOne(b, k);
      assert multiset(Without(a, 0)) == multiset(a) - multiset{a[0]} == multiset(Without(b, k));
      MappedPermutation(f, Without(a, 0), Without(b, k));
      MappedOne(f, a, 0);
      MappedOne(f, b, k);
    }
  }

  // ---------------------------------------------------------------- settings

  type Setting = Pair<string>

  function TrimName(s: Setting): Setting {
    Pair(Trim(s.name), s.value)
  }

  ghost function NormalSettings(settings: seq<Setting>): Option<seq<Setting>> {
    var trimmed := Mapped(TrimName, settings);
    if (forall s :: s in trimmed ==> s.name != "") && UniqueNames(trimmed) then Some(Sort(PairLeq, trimmed)) else None
  }

  /** The loop over settings, with its set of names seen. */
  method NormalizeSettings(settings: seq<Setting>) returns (r: Option<seq<Setting>>)
    ensures r == NormalSettings(settings)
  {
    hide Trim, UniqueNames;
    var normalized: seq<Setting>, seen: set<string> := [], {};
    ghost var trimmed := Mapped(TrimName, settings);
    NoNames<string>();
    for i := 0 to |settings|
      invariant normalized == trimmed[..i]
      invariant UniqueNames(normalized) && Seen(normalized, seen)
    {
      var name := Trim(settings[i].name);
      assert trimmed[i] == TrimName(settings[i]) && trimmed[i] in trimmed;
      if name == "" { return None; }
      if name in seen {
        RepeatedName(trimmed, i);
        return None;
      }
      var next := Pair(name, settings[i].value);
      NewName(normalized, seen, next);
      normalized := normalized + [next];
      seen := seen + {name};
    }
    assert trimmed[..|settings|] == trimmed;
    return Some(Sort(PairLeq, normalized));
  }

  /** A setting but for white space around its name. */
  ghost predicate Given(settings: seq<Setting>, x: Setting) {
    exists s :: s in settings && Trim(s.name) == x.name && s.value == x.value
  }

  lemma TrimmedMeans(settings: seq<Setting>)
    ensures forall x :: x in Mapped(TrimName, settings) <==> Given(settings, x)
  {
    hide Trim;
    var trimmed := Mapped(TrimName, settings);
    forall x | x in trimmed ensures Given(settings, x) {
      var i :| 0 <= i < |trimmed| && trimmed[i] == x;
      assert settings[i] in settings;
    }
    forall x | Given(settings, x) ensures x in trimmed {
      var s :| s in settings && Trim(s.name) == x.name && s.value == x.value;
      var i :| 0 <= i < |settings| && settings[i] == s;
      assert trimmed[i] == x;
    }
  }

  /** The normal form holds the given settings, no more and no fewer: names trimmed, values as they were, sorted by name. */
  lemma SettingsMeans(settings: seq<Setting>)
    requires NormalSettings(settings).Some?
    ensures var n := NormalSettings(settings).value;
            |n| == |settings| && Sorted(PairLeq, n) && UniqueNames(n) && forall x :: x in n <==> Given(settings, x) && x.name != ""
  {
    var trimmed := Mapped(TrimName, settings);
    SortedPairs(trimmed);
    PairOrder<string>();
    SortIsSorted(PairLeq, trimmed);
    TrimmedMeans(settings);
    hide UniqueNames, Sort, Given, Sorted, TotalPreorder, TrimName;
    var n := NormalSettings(settings).value;
    assert |n| == |multiset(n)| == |multiset(trimmed)| == |trimmed|;
  }

  /** The set of names a loop has met, none of them empty. */
  ghost predicate Seen<V(!new)>(s: seq<Pair<V>>, seen: set<string>) {
    && (forall x :: x in s ==> x.name != "" && x.name in seen)
    && (forall name :: name in seen ==> exists x :: x in s && x.name == name)
  }

  lemma NoNames<V(!new)>()
    ensures UniqueNames<V>([]) && Seen<V>([], {})
  {
  }

  lemma RepeatedName<V(!new)>(s: seq<Pair<V>>, i: nat)
    requires i < |s| && exists x :: x in s[..i] && x.name == s[i].name
    ensures !UniqueNames(s)
  {
    var x :| x in s[..i] && x.name == s[i].name;
    var k :| 0 <= k < i && s[k] == x;
    assert s[k] in s && s[i] in s;
  }

  lemma NewName<V(!new)>(s: seq<Pair<V>>, seen: set<string>, x: Pair<V>)
    requires UniqueNames(s) && Seen(s, seen) && x.name !in seen && x.name != ""
    ensures UniqueNames(s + [x]) && Seen(s + [x], seen + {x.name})
  {
    var next := s + [x];
    assert forall y :: y in next <==> y in s || y == x;
    forall name | name in seen + {x.name} ensures exists y :: y in next && y.name == name {
      if name in seen {
        var y :| y in s && y.name == name;
        assert y in next;
      } else {
        assert x in next;
      }
    }
  }

  /** Sorting by name keeps elements and uniqueness. */
  lemma SortedPairs<V(!new)>(s: seq<Pair<V>>)
    requires UniqueNames(s)
    ensures UniqueNames(Sort(PairLeq, s)) && (forall x :: x in Sort(PairLeq, s) <==> x in s)
    ensures Sort(PairLeq, Sort(PairLeq, s)) == Sort(PairLeq, s)
  {
    PairOrder<V>();
    SortIsSorted(PairLeq, s);
    UniquePermutation(Sort(PairLeq, s), s);
    SameElements(Sort(PairLeq, s), s);
    SortFixpoint(PairLeq, Sort(PairLeq, s));
  }

  lemma SettingsIdempotent(settings: seq<Setting>)
    requires NormalSettings(settings).Some?
    ensures NormalSettings(NormalSettings(settings).value) == NormalSettings(settings)
  {
    var trimmed := Mapped(TrimName, settings);
    var n := Sort(PairLeq, trimmed);
    SortedPairs(trimmed);
    hide Sort, UniqueNames;
    forall i | 0 <= i < |n| ensures TrimName(n[i]) == n[i] {
      assert n[i] in trimmed;
      var k :| 0 <= k < |trimmed| && trimmed[k] == n[i];
      TrimTwice(settings[k].name);
    }
    assert Mapped(TrimName, n) == n;
  }

  lemma TrimTwice(s: string)
    ensures Trim(Trim(s)) == Trim(s)
  {
    TrimIsTrimmed(s);
    TrimFixpoint(Trim(s));
  }

  lemma SettingsPermutation(a: seq<Setting>, b: seq<Setting>)
    requires multiset(a) == multiset(b)
    ensures NormalSettings(a) == NormalSettings(b)
  {
    var s, t := Mapped(TrimName, a), Mapped(TrimName, b);
    MappedPermutation(TrimName, a, b);
    SameElements(s, t);
    UniquePermutation(s, t);
    hide UniqueNames;
    if UniqueNames(s) {
      PairOrder<string>();
      UniqueSeparates(s);
      SortPermutation(PairLeq, s, t);
    }
  }

  // ---------------------------------------------------------------- extended attributes

  type XAttr = Pair<seq<Byte>>

  ghost function NormalXAttrs(xattrs: seq<XAttr>): Option<seq<XAttr>> {
    if (forall x :: x in xattrs ==> ValidateXAttrName(x.name).Ok?) && UniqueNames(xattrs) then Some(Sort(PairLeq, xattrs)) else None
  }

  method NormalizeXAttrs(xattrs: seq<XAttr>) returns (r: Option<seq<XAttr>>)
    ensures r == NormalXAttrs(xattrs)
  {
    hide UniqueNames;
    var seen: set<string> := {};
    NoNames<seq<Byte>>();
    for i := 0 to |xattrs|
      invariant UniqueNames(xattrs[..i]) && Seen(xattrs[..i], seen)
      invariant forall x :: x in xattrs[..i] ==> ValidateXAttrName(x.name).Ok?
    {
      assert xattrs[i] in xattrs;
      if ValidateXAttrName(xattrs[i].name).Err? { return None; }
      if xattrs[i].name in seen {
        RepeatedName(xattrs, i);
        return None;
      }
      assert xattrs[..i + 1] == xattrs[..i] + [xattrs[i]];
      NewName(xattrs[..i], seen, xattrs[i]);
      seen := seen + {xattrs[i].name};
    }
    assert xattrs[..|xattrs|] == xattrs;
    return Some(Sort(PairLeq, xattrs));
  }

  lemma XAttrsIdempotent(xattrs: seq<XAttr>)
    requires NormalXAttrs(xattrs).Some?
    ensures NormalXAttrs(NormalXAttrs(xattrs).value) == NormalXAttrs(xattrs)
  {
    SortedPairs(xattrs);
  }

  lemma XAttrsPermutation(a: seq<XAttr>, b: seq<XAttr>)
    requires multiset(a) == multiset(b)
    ensures NormalXAttrs(a) == NormalXAttrs(b)
  {
    SameElements(a, b);
    UniquePermutation(a, b);
    hide UniqueNames;
    if UniqueNames(a) {
      PairOrder<seq<Byte>>();
      UniqueSeparates(a);
      SortPermutation(PairLeq, a, b);
    }
  }

  // ---------------------------------------------------------------- capabilities

  const CAPABILITIES := {
    "linux-special-files", "linux-ownership-metadata", "linux-timestamp-metadata",
    "linux-xattr-metadata", "linux-acl-metadata", "operation-xattr", "operation-chown"
  }

  function Trims(texts: seq<string>): (t: seq<string>)
    ensures |t| == |texts| && forall i :: 0 <= i < |texts| ==> t[i] == Trim(texts[i])
  {
    Mapped(Trim, texts)
  }

  ghost function NormalCapabilities(capabilities: seq<string>): Option<seq<string>> {
    var trimmed := Trims(capabilities);
    if (forall c :: c in trimmed ==> c in CAPABILITIES) && Distinct(trimmed) then Some(Sort(Leq, trimmed)) else None
  }

  method NormalizeCapabilities(capabilities: seq<string>) returns (r: Option<seq<string>>)
    ensures r == NormalCapabilities(capabilities)
  {
    hide Trim;
    if |capabilities| == 0 { return Some([]); }
    var normalized: seq<string>, seen: set<string> := [], {};
    ghost var trimmed := Trims(capabilities);
    for i := 0 to |capabilities|
      invariant normalized == trimmed[..i] && Distinct(normalized)
      invariant forall c :: c in normalized ==> c in CAPABILITIES
      invariant forall c :: c in seen <==> c in normalized
    {
      var name := Trim(capabilities[i]);
      assert trimmed[i] == name && trimmed[i] in trimmed;
      if name !in CAPABILITIES { return None; }
      if name in seen {
        RepeatedElement(trimmed, i);
        return None;
      }
      assert forall c :: c in normalized + [name] <==> c in normalized || c == name;
      normalized := normalized + [name];
      seen := seen + {name};
    }
    assert trimmed[..|capabilities|] == trimmed;
    return Some(Sort(Leq, normalized));
  }

  lemma RepeatedElement(s: seq<string>, i: nat)
    requires i < |s| && s[i] in s[..i]
    ensures !Distinct(s)
  {
    var k :| 0 <= k < i && s[k] == s[i];
  }

  lemma SortedStrings(s: seq<string>)
    ensures (forall x :: x in Sort(Leq, s) <==> x in s) && (Distinct(Sort(Leq, s)) <==> Distinct(s))
    ensures Sorted(Leq, Sort(Leq, s)) && Sort(Leq, Sort(Leq, s)) == Sort(Leq, s)
  {
    StringOrder();
    SortIsSorted(Leq, s);
    SameElements(Sort(Leq, s), s);
    SortFixpoint(Leq, Sort(Leq, s));
  }

  lemma TrimmedAlready(s: seq<string>, raw: seq<string>)
    requires forall x :: x in s ==> x in Trims(raw)
    ensures Trims(s) == s
  {
    forall i | 0 <= i < |s| ensures Trim(s[i]) == s[i] {
      assert s[i] in s;
      var k :| 0 <= k < |raw| && Trims(raw)[k] == s[i];
      TrimTwice(raw[k]);
    }
  }

  lemma CapabilitiesIdempotent(capabilities: seq<string>)
    requires NormalCapabilities(capabilities).Some?
    ensures NormalCapabilities(NormalCapabilities(capabilities).value) == NormalCapabilities(capabilities)
  {
    var trimmed := Trims(capabilities);
    SortedStrings(trimmed);
    TrimmedAlready(Sort(Leq, trimmed), capabilities);
  }

  lemma CapabilitiesPermutation(a: seq<string>, b: seq<string>)
    requires multiset(a) == multiset(b)
    ensures NormalCapabilities(a) == NormalCapabilities(b)
  {
    var s, t := Trims(a), Trims(b);
    MappedPermutation(Trim, a, b);
    SameElements(s, t);
    StringOrder();
    StringsSeparate(s);
    SortPermutation(Leq, s, t);
  }

  // ---------------------------------------------------------------- ACL texts

  predicate ACLTextOk(text: string) {
    text != "" && NUL !in text && ',' !in text
  }

  /** Drop elements equal to their left neighbour. */
  function Deduplicated(s: seq<string>): seq<string> {
    if |s| <= 1 then s
    else if s[|s| - 1] == s[|s| - 2] then Deduplicated(s[..|s| - 1])
    else Deduplicated(s[..|s| - 1]) + [s[|s| - 1]]
  }

  ghost function NormalACL(texts: seq<string>): Option<seq<string>> {
    var trimmed := Trims(texts);
    if forall t :: t in trimmed ==> ACLTextOk(t) then Some(Deduplicated(Sort(Leq, trimmed))) else None
  }

  /** The in-place pass: survivors overwrite the front of the slice being read. */
  method DeduplicateInPlace(normalized: array<string>) returns (n: nat)
    modifies normalized
    ensures n <= normalized.Length && normalized[..n] == Deduplicated(old(normalized[..]))
  {
    hide Deduplicated;
    ghost var start := normalized[..];
    n := 0;
    DeduplicatedNothing();
    for i := 0 to normalized.Length
      invariant n <= i && normalized[..n] == Deduplicated(start[..i])
      invariant forall k :: n <= k < normalized.Length ==> normalized[k] == start[k]
      invariant i > 0 ==> n > 0 && normalized[i - 1] == start[i - 1] && normalized[n - 1] == start[i - 1]
    {
      DeduplicatedStep(start, i);
      if i > 0 && normalized[i - 1] == normalized[i] {
        continue;
      }
      normalized[n] := normalized[i];
      n := n + 1;
      assert normalized[..n] == normalized[..n - 1] + [start[i]];
    }
    assert start[..normalized.Length] == start;
  }

  lemma DeduplicatedNothing()
    ensures Deduplicated([]) == []
  {
  }

  lemma DeduplicatedStep(s: seq<string>, i: nat)
    requires i < |s|
    ensures Deduplicated(s[..i + 1]) ==
            if i > 0 && s[i - 1] == s[i] then Deduplicated(s[..i]) else Deduplicated(s[..i]) + [s[i]]
  {
    assert s[..i + 1][..i] == s[..i];
    if i == 0 {
      assert s[..1] == [s[0]];
    }
  }

  /** normalizeACLEntries */
  method NormalizeACLEntries(entries: seq<string>) returns (r: Option<seq<string>>)
    ensures r == NormalACL(entries)
  {
    hide Trim;
    if |entries| == 0 { return Some([]); }
    var normalized: seq<string> := [];
    ghost var trimmed := Trims(entries);
    for i := 0 to |entries|
      invariant normalized == trimmed[..i] && forall t :: t in normalized ==> ACLTextOk(t)
    {
      var text := Trim(entries[i]);
      assert trimmed[i] == text && trimmed[i] in trimmed;
      if text == "" || NUL in text || ',' in text { return None; }
      normalized := normalized + [text];
    }
    assert trimmed[..|entries|] == trimmed;
    var sorted := Sort(Leq, normalized);
    var slice := new string[|sorted|](i requires 0 <= i < |sorted| => sorted[i]);
    assert slice[..] == sorted;
    var n := DeduplicateInPlace(slice);
    return Some(slice[..n]);
  }

  /** `d` lists the elements of a sorted `s` once each, in order. */
  ghost predicate OnceEach(s: seq<string>, d: seq<string>) {
    && (forall x :: x in d <==> x in s)
    && Sorted(Leq, d) && Distinct(d)
    && (s != [] ==> d != [] && d[|d| - 1] == s[|s| - 1])
  }

  /** On a sorted list, deduplication keeps every element once, in order. */
  lemma {:induction false} DeduplicatedSorted(s: seq<string>)
    requires Sorted(Leq, s)
    ensures OnceEach(s, Deduplicated(s))
  {
    hide Sorted, OnceEach, Distinct;
    if |s| <= 1 {
      AtMostOne(s);
    } else {
      var front, last := s[..|s| - 1], s[|s| - 1];
      assert s == front + [last];
      SortedFront(s);
      DeduplicatedSorted(front);
      if last == front[|front| - 1] {
        RepeatedLast(front, last, Deduplicated(front));
      } else {
        NewLast(front, last, Deduplicated(front));
      }
    }
  }

  lemma AtMostOne(s: seq<string>)
    requires |s| <= 1
    ensures OnceEach(s, s)
  {
  }

  lemma RepeatedLast(front: seq<string>, last: string, d: seq<string>)
    requires OnceEach(front, d) && front != [] && front[|front| - 1] == last
    ensures OnceEach(front + [last], d)
  {
    InSnoc(front, last);
    assert front[|front| - 1] in front;
  }

  lemma NewLast(front: seq<string>, last: string, d: seq<string>)
    requires OnceEach(front, d) && Sorted(Leq, front + [last]) && front != [] && front[|front| - 1] != last
    ensures OnceEach(front + [last], d + [last])
  {
    InSnoc(front, last);
    LastIsGreatest(front, last);
    hide Sorted, Distinct;
    GreaterLast(d, last);
  }

  lemma SortedFront(s: seq<string>)
    requires Sorted(Leq, s) && s != []
    ensures Sorted(Leq, s[..|s| - 1])
  {
  }

  lemma InSnoc(front: seq<string>, last: string)
    ensures forall x :: x in front + [last] <==> x in front || x == last
  {
  }

  lemma GreaterLast(d: seq<string>, last: string)
    requires Sorted(Leq, d) && Distinct(d) && forall x :: x in d ==> Leq(x, last) && x != last
    ensures Sorted(Leq, d + [last]) && Distinct(d + [last])
    ensures forall x :: x in d + [last] <==> x in d || x == last
  {
    forall i | 0 <= i < |d| ensures Leq(d[i], last) && d[i] != last {
      assert d[i] in d;
    }
  }

  lemma LastIsGreatest(front: seq<string>, last: string)
    requires Sorted(Leq, front + [last]) && front != [] && front[|front| - 1] != last
    ensures forall x :: x in front ==> Leq(x, last) && x != last
  {
    var s, before := front + [last], front[|front| - 1];
    assert s[|front|] == last && s[|front| - 1] == before && Leq(before, last);
    forall x | x in front ensures Leq(x, last) && x != last {
      var k :| 0 <= k < |front| && front[k] == x;
      assert s[k] == x;
      assert k < |front| - 1 ==> Leq(x, before);
      LeqTotal(before, last);
    }
  }

  lemma {:induction false} DistinctStays(s: seq<string>)
    requires Distinct(s)
    ensures Deduplicated(s) == s
  {
    if |s| > 1 {
      DistinctStays(s[..|s| - 1]);
      assert s[..|s| - 1] + [s[|s| - 1]] == s;
    }
  }

  /** The normal form lists the trimmed texts once each, sorted. */
  lemma NormalACLMeans(texts: seq<string>)
    requires NormalACL(texts).Some?
    ensures var n := NormalACL(texts).value;
            Sorted(Leq, n) && Distinct(n) && forall t :: t in n <==> t in Trims(texts)
  {
    var trimmed := Trims(texts);
    SortedStrings(trimmed);
    DeduplicatedSorted(Sort(Leq, trimmed));
  }

  lemma ACLIdempotent(texts: seq<string>)
    requires NormalACL(texts).Some?
    ensures NormalACL(NormalACL(texts).value) == NormalACL(texts)
  {
    var n := NormalACL(texts).value;
    NormalACLMeans(texts);
    TrimmedAlready(n, texts);
    StringOrder();
    SortFixpoint(Leq, n);
    DistinctStays(n);
  }

  /** Neither order nor repetition matters. */
  lemma ACLSameTexts(a: seq<string>, b: seq<string>)
    requires forall t :: t in a <==> t in b
    ensures NormalACL(a) == NormalACL(b)
  {
    MappedMembers(a, b);
    MappedMembers(b, a);
    if NormalACL(a).Some? {
      NormalACLMeans(a);
      NormalACLMeans(b);
      var m, n := NormalACL(a).value, NormalACL(b).value;
      hide NormalACL, Sorted, Distinct, Mapped;
      DistinctSameMembers(m, n);
      StringsSeparate(m);
      SortedUnique(Leq, m, n);
    }
  }

  lemma MappedMembers(a: seq<string>, b: seq<string>)
    requires forall t :: t in a ==> t in b
    ensures forall t :: t in Trims(a) ==> t in Trims(b)
  {
    forall t | t in Trims(a) ensures t in Trims(b) {
      var k :| 0 <= k < |a| && Trims(a)[k] == t;
      assert a[k] in b;
      var l :| 0 <= l < |b| && b[l] == a[k];
      assert Trims(b)[l] == t;
    }
  }
}
