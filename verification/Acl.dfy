/**
  internal/aclxattr/aclxattr.go: ACL entries, their canonical order, what a valid list is
  (acl_valid, section 23.4.28 of IEEE Std 1003.1e draft 17), and the binary attribute codec in
  either byte order.
 */
module Acl {
  import opened Wrappers
  import opened Sorting

  type U16 = x: int | 0 <= x < 0x1_0000
  type U32 = x: int | 0 <= x < 0x1_0000_0000

  const USER_OBJ: U16 := 0x01
  const USER: U16 := 0x02
  const GROUP_OBJ: U16 := 0x04
  const GROUP: U16 := 0x08
  const MASK: U16 := 0x10
  const OTHER: U16 := 0x20
  const UNDEFINED_ID: U32 := 0xFFFF_FFFF
  const VERSION: U32 := 2
  const HEADER := 4
  const RECORD := 8

  datatype Entry = Entry(tag: U16, perm: U16, id: U32)

  datatype AclError =
    | PermissionBits | QualifierForbidden | QualifierMissing | TagUnsupported | Duplicate
    | UserObjCount | GroupObjCount | OtherCount | MaskCount | MaskRequired
    | PayloadTooShort | PayloadMalformed | VersionMismatch

  // ---------------------------------------------------------------- canonical order

  function Rank(tag: U16): nat {
    if tag == USER_OBJ then 0 else if tag == USER then 1 else if tag == GROUP_OBJ then 2
    else if tag == GROUP then 3 else if tag == MASK then 4 else if tag == OTHER then 5 else 99
  }

  predicate EntryLeq(a: Entry, b: Entry) {
    var r, s := Rank(a.tag), Rank(b.tag);
    r < s || (r == s && (a.id < b.id || (a.id == b.id && a.perm <= b.perm)))
  }

  function SortEntries(entries: seq<Entry>): seq<Entry> {
    Sort(EntryLeq, entries)
  }

  lemma EntryOrder()
    ensures TotalPreorder(EntryLeq)
  {
  }

  // ---------------------------------------------------------------- validity

  predicate Named(e: Entry) {
    e.tag == USER || e.tag == GROUP
  }

  predicate Unqualified(tag: U16) {
    tag == USER_OBJ || tag == GROUP_OBJ || tag == MASK || tag == OTHER
  }

  /** A well-formed entry: permission bits only, and a qualifier exactly on named entries. */
  predicate EntryOk(e: Entry) {
    e.perm <= 7 && (Named(e) || Unqualified(e.tag)) && (Named(e) <==> e.id != UNDEFINED_ID)
  }

  predicate SameKey(a: Entry, b: Entry) {
    a.tag == b.tag && a.id == b.id
  }

  predicate Has(entries: seq<Entry>, tag: U16) {
    exists e :: e in entries && e.tag == tag
  }

  /** At most one entry per tag and qualifier. */
  ghost predicate UniqueKeys(entries: seq<Entry>) {
    Distinct(entries) && forall a, b :: a in entries && b in entries && SameKey(a, b) ==> a == b
  }

  /** The three base entries, no duplicates, and a mask when there are named entries. */
  ghost predicate ValidACL(entries: seq<Entry>) {
    entries == []
    || (&& (forall e :: e in entries ==> EntryOk(e))
        && UniqueKeys(entries)
        && Has(entries, USER_OBJ) && Has(entries, GROUP_OBJ) && Has(entries, OTHER)
        && (Has(entries, USER) || Has(entries, GROUP) ==> Has(entries, MASK)))
  }

  /** Validity does not depend on order. */
  lemma ValidPermutation(a: seq<Entry>, b: seq<Entry>)
    requires multiset(a) == multiset(b)
    ensures ValidACL(a) <==> ValidACL(b)
  {
    SameMembers(a, b);
    DistinctCounts(a);
    DistinctCounts(b);
    assert |multiset(a)| == |multiset(b)|;
    hide Distinct;
  }

  lemma SameMembers(a: seq<Entry>, b: seq<Entry>)
    requires multiset(a) == multiset(b)
    ensures forall e :: e in a <==> e in b
  {
    forall e ensures e in a <==> e in b {
      assert e in a <==> e in multiset(a);
      assert e in b <==> e in multiset(b);
    }
  }

  /** Entries of a valid list are told apart by the order. */
  lemma ValidSeparates(entries: seq<Entry>)
    requires forall e :: e in entries ==> EntryOk(e)
    ensures Separates(EntryLeq, entries)
  {
  }

  lemma SortValid(entries: seq<Entry>)
    ensures multiset(SortEntries(entries)) == multiset(entries) && Sorted(EntryLeq, SortEntries(entries))
    ensures ValidACL(SortEntries(entries)) <==> ValidACL(entries)
    ensures |SortEntries(entries)| == |entries|
  {
    EntryOrder();
    SortIsSorted(EntryLeq, entries);
    hide ValidACL;
    ValidPermutation(SortEntries(entries), entries);
  }

  // ---------------------------------------------------------------- Validate

  function CountTag(entries: seq<Entry>, tag: U16): nat {
    if entries == [] then 0
    else CountTag(entries[..|entries| - 1], tag) + if entries[|entries| - 1].tag == tag then 1 else 0
  }

  lemma {:induction false} CountIsHas(entries: seq<Entry>, tag: U16)
    ensures CountTag(entries, tag) >= 1 <==> Has(entries, tag)
    ensures UniqueKeys(entries) && (forall e :: e in entries ==> EntryOk(e)) && Unqualified(tag) ==> CountTag(entries, tag) <= 1
  {
    if entries != [] {
      var front, last := entries[..|entries| - 1], entries[|entries| - 1];
      assert entries == front + [last];
      CountIsHas(front, tag);
      if UniqueKeys(entries) && (forall e :: e in entries ==> EntryOk(e)) && Unqualified(tag) && last.tag == tag {
        UnqualifiedOnce(front, last);
      }
    }
  }

  /** A tag without qualifier occurs once in a duplicate-free list. */
  lemma UnqualifiedOnce(front: seq<Entry>, last: Entry)
    requires UniqueKeys(front + [last]) && Unqualified(last.tag)
    requires forall e :: e in front + [last] ==> EntryOk(e)
    ensures !Has(front, last.tag)
  {
    var entries := front + [last];
    assert last in entries && EntryOk(last);
    assert entries[|front|] == last;
    forall k | 0 <= k < |front| ensures front[k] != last {
      assert entries[k] == front[k];
    }
    assert last !in front;
    forall e | e in front ensures e.tag != last.tag {
      assert e in entries && EntryOk(e);
      assert SameKey(e, last) ==> e == last;
    }
  }

  /** What the loop has accepted so far. */
  ghost predicate Accepted(entries: seq<Entry>, seen: set<(U16, U32)>, counts: map<U16, nat>, hasNamed: bool) {
    && (forall e :: e in entries ==> EntryOk(e))
    && UniqueKeys(entries)
    && (forall e :: e in entries ==> (e.tag, e.id) in seen)
    && (forall k :: k in seen ==> exists e :: e in entries && (e.tag, e.id) == k)
    && (forall tag :: (if tag in counts then counts[tag] else 0) == CountTag(entries, tag))
    && (hasNamed <==> Has(entries, USER) || Has(entries, GROUP))
  }

  lemma AcceptOne(entries: seq<Entry>, seen: set<(U16, U32)>, counts: map<U16, nat>, hasNamed: bool, e: Entry)
    requires Accepted(entries, seen, counts, hasNamed) && EntryOk(e) && (e.tag, e.id) !in seen
    ensures Accepted(entries + [e], seen + {(e.tag, e.id)}, counts[e.tag := (if e.tag in counts then counts[e.tag] else 0) + 1],
                     hasNamed || Named(e))
  {
    var next := entries + [e];
    UniqueSnoc(entries, seen, e);
    hide UniqueKeys, EntryOk;
    assert next[..|entries|] == entries;
    assert forall x :: x in next <==> x in entries || x == e;
    var seen' := seen + {(e.tag, e.id)};
    forall k | k in seen' ensures exists x :: x in next && (x.tag, x.id) == k {
      if k in seen {
        var x :| x in entries && (x.tag, x.id) == k;
        assert x in next;
      } else {
        assert e in next;
      }
    }
    HasSnoc(entries, e, USER);
    HasSnoc(entries, e, GROUP);
    hide Has;
  }

  lemma UniqueSnoc(entries: seq<Entry>, seen: set<(U16, U32)>, e: Entry)
    requires UniqueKeys(entries) && (e.tag, e.id) !in seen
    requires forall x :: x in entries ==> (x.tag, x.id) in seen
    ensures UniqueKeys(entries + [e])
  {
    assert forall x :: x in entries + [e] <==> x in entries || x == e;
  }

  lemma HasSnoc(entries: seq<Entry>, e: Entry, tag: U16)
    ensures Has(entries + [e], tag) <==> Has(entries, tag) || e.tag == tag
  {
    assert forall x :: x in entries + [e] <==> x in entries || x == e;
    if Has(entries, tag) {
      var x :| x in entries && x.tag == tag;
      assert x in entries + [e];
    }
    if e.tag == tag { assert e in entries + [e]; }
  }

  /** A rejected entry spoils every list it is in. */
  lemma RejectOne(entries: seq<Entry>, i: nat, seen: set<(U16, U32)>, counts: map<U16, nat>, hasNamed: bool)
    requires i < |entries| && Accepted(entries[..i], seen, counts, hasNamed)
    requires !EntryOk(entries[i]) || (entries[i].tag, entries[i].id) in seen
    ensures !ValidACL(entries)
  {
    var e := entries[i];
    assert e in entries;
    if EntryOk(e) {
      var x :| x in entries[..i] && (x.tag, x.id) == (e.tag, e.id);
      var k :| 0 <= k < i && entries[k] == x;
      assert entries[k] in entries && SameKey(entries[k], e);
    }
  }

  /** Validate: the loop with its maps decides exactly the declarative validity. */
  method Validate(entries: seq<Entry>) returns (error: Option<AclError>)
    ensures error.None? <==> ValidACL(entries)
  {
    if |entries| == 0 { return None; }
    var counts: map<U16, nat> := map[];
    var seen: set<(U16, U32)> := {};
    var hasNamed := false;
    for i := 0 to |entries|
      invariant Accepted(entries[..i], seen, counts, hasNamed)
    {
      hide Accepted, ValidACL, UniqueKeys;
      var e := entries[i];
      assert entries[..i + 1] == entries[..i] + [e];
      if e.perm > 7 {
        RejectOne(entries, i, seen, counts, hasNamed);
        return Some(PermissionBits);
      }
      if Unqualified(e.tag) {
        if e.id != UNDEFINED_ID {
          RejectOne(entries, i, seen, counts, hasNamed);
          return Some(QualifierForbidden);
        }
      } else if Named(e) {
        if e.id == UNDEFINED_ID {
          RejectOne(entries, i, seen, counts, hasNamed);
          return Some(QualifierMissing);
        }
      } else {
        RejectOne(entries, i, seen, counts, hasNamed);
        return Some(TagUnsupported);
      }
      if (e.tag, e.id) in seen {
        RejectOne(entries, i, seen, counts, hasNamed);
        return Some(Duplicate);
      }
      AcceptOne(entries[..i], seen, counts, hasNamed, e);
      hasNamed := hasNamed || Named(e);
      seen := seen + {(e.tag, e.id)};
      counts := counts[e.tag := (if e.tag in counts then counts[e.tag] else 0) + 1];
    }
    assert entries[..|entries|] == entries;
    CountIsHas(entries, USER_OBJ);
    CountIsHas(entries, GROUP_OBJ);
    CountIsHas(entries, OTHER);
    CountIsHas(entries, MASK);
    error := CheckCounts(counts, hasNamed);
  }

  function Tally(counts: map<U16, nat>, tag: U16): nat {
    if tag in counts then counts[tag] else 0
  }

  /** The checks after the loop. */
  method CheckCounts(counts: map<U16, nat>, hasNamed: bool) returns (error: Option<AclError>)
    ensures error.None? <==>
      (Tally(counts, USER_OBJ) == 1 && Tally(counts, GROUP_OBJ) == 1 && Tally(counts, OTHER) == 1
       && Tally(counts, MASK) <= 1 && (hasNamed ==> Tally(counts, MASK) == 1))
  {
    if Tally(counts, USER_OBJ) != 1 { return Some(UserObjCount); }
    if Tally(counts, GROUP_OBJ) != 1 { return Some(GroupObjCount); }
    if Tally(counts, OTHER) != 1 { return Some(OtherCount); }
    if Tally(counts, MASK) > 1 { return Some(MaskCount); }
    if hasNamed && Tally(counts, MASK) != 1 { return Some(MaskRequired); }
    return None;
  }
}
