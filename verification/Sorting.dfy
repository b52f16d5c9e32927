/**
  Sorting, standing for Go's sort.Slice and sort.Strings. Those are library calls, so an
  insertion sort is as good a model as any: `SortUnique` shows that every sorted permutation
  of the same elements is the same sequence as soon as equivalent elements are equal.
 */
module Sorting {

  ghost predicate TotalPreorder<T(!new)>(leq: (T, T) -> bool) {
    && (forall x, y :: leq(x, y) || leq(y, x))
    && (forall x, y, z :: leq(x, y) && leq(y, z) ==> leq(x, z))
  }

  ghost predicate Sorted<T>(leq: (T, T) -> bool, s: seq<T>) {
    forall i, j :: 0 <= i < j < |s| ==> leq(s[i], s[j])
  }

  /** Elements of `s` that the order cannot tell apart are equal. */
  ghost predicate Separates<T(!new)>(leq: (T, T) -> bool, s: seq<T>) {
    forall x, y :: x in s && y in s && leq(x, y) && leq(y, x) ==> x == y
  }

  lemma Chain<T(!new)>(leq: (T, T) -> bool, x: T, y: T, z: T)
    requires TotalPreorder(leq) && leq(x, y) && leq(y, z)
    ensures leq(x, z)
  {
  }

  lemma Total<T(!new)>(leq: (T, T) -> bool, x: T, y: T)
    requires TotalPreorder(leq)
    ensures leq(x, y) || leq(y, x)
  {
  }

  function Insert<T>(leq: (T, T) -> bool, x: T, s: seq<T>): seq<T> {
    if s == [] || leq(x, s[0]) then [x] + s else [s[0]] + Insert(leq, x, s[1..])
  }

  function Sort<T>(leq: (T, T) -> bool, s: seq<T>): seq<T> {
    if s == [] then [] else Insert(leq, s[0], Sort(leq, s[1..]))
  }

  lemma {:induction false} InsertElements<T(!new)>(leq: (T, T) -> bool, x: T, s: seq<T>)
    ensures multiset(Insert(leq, x, s)) == multiset(s) + multiset{x}
  {
    if s == [] || leq(x, s[0]) {
    } else {
      InsertElements(leq, x, s[1..]);
      assert s == [s[0]] + s[1..];
    }
  }

  lemma {:induction false} InsertIsSorted<T(!new)>(leq: (T, T) -> bool, x: T, s: seq<T>)
    requires TotalPreorder(leq) && Sorted(leq, s)
    ensures Sorted(leq, Insert(leq, x, s))
  {
    hide TotalPreorder;
    if s == [] {
    } else if leq(x, s[0]) {
      forall j | 0 < j < |s| ensures leq(x, s[j]) { Chain(leq, x, s[0], s[j]); }
    } else {
      Total(leq, x, s[0]);
      InsertIsSorted(leq, x, s[1..]);
      InsertElements(leq, x, s[1..]);
      var t := Insert(leq, x, s[1..]);
      forall j | 0 <= j < |t| ensures leq(s[0], t[j]) {
        assert t[j] in multiset(s[1..]) + multiset{x};
      }
    }
  }

  lemma {:induction false} SortElements<T(!new)>(leq: (T, T) -> bool, s: seq<T>)
    ensures multiset(Sort(leq, s)) == multiset(s)
  {
    if s != [] {
      SortElements(leq, s[1..]);
      InsertElements(leq, s[0], Sort(leq, s[1..]));
      assert s == [s[0]] + s[1..];
    }
  }

  lemma {:induction false} SortIsSorted<T(!new)>(leq: (T, T) -> bool, s: seq<T>)
    requires TotalPreorder(leq)
    ensures Sorted(leq, Sort(leq, s))
    ensures multiset(Sort(leq, s)) == multiset(s)
    ensures |Sort(leq, s)| == |s|
  {
    hide TotalPreorder, Sorted;
    if s != [] {
      SortIsSorted(leq, s[1..]);
      InsertIsSorted(leq, s[0], Sort(leq, s[1..]));
    } else {
      NothingSorted(leq);
    }
    SortElements(leq, s);
    assert |Sort(leq, s)| == |multiset(Sort(leq, s))| == |multiset(s)| == |s|;
  }

  lemma NothingSorted<T>(leq: (T, T) -> bool)
    ensures Sorted(leq, [])
  {
  }

  lemma SortedHead<T(!new)>(leq: (T, T) -> bool, a: seq<T>, x: T)
    requires Sorted(leq, a) && x in a
    ensures leq(a[0], x) || x == a[0]
  {
  }

  lemma SortedHeads<T(!new)>(leq: (T, T) -> bool, a: seq<T>, b: seq<T>)
    requires Sorted(leq, a) && Sorted(leq, b) && multiset(a) == multiset(b) && a != []
    requires Separates(leq, a)
    ensures b != [] && a[0] == b[0]
  {
    assert a[0] in multiset(b);
    assert b[0] in multiset(a);
    SortedHead(leq, b, a[0]);
    SortedHead(leq, a, b[0]);
  }

  lemma Tails<T(!new)>(leq: (T, T) -> bool, a: seq<T>)
    requires a != []
    ensures multiset(a[1..]) == multiset(a) - multiset{a[0]}
    ensures Sorted(leq, a) ==> Sorted(leq, a[1..])
    ensures Separates(leq, a) ==> Separates(leq, a[1..])
  {
    assert a == [a[0]] + a[1..];
  }

  lemma HeadAndTail<T>(a: seq<T>, b: seq<T>)
    requires a != [] && b != [] && a[0] == b[0] && a[1..] == b[1..]
    ensures a == b
  {
    assert a == [a[0]] + a[1..] && b == [b[0]] + b[1..];
  }

  /** Two sorted arrangements of the same elements are the same sequence. */
  lemma {:induction false} SortedUnique<T(!new)>(leq: (T, T) -> bool, a: seq<T>, b: seq<T>)
    requires Sorted(leq, a) && Sorted(leq, b) && multiset(a) == multiset(b)
    requires Separates(leq, a)
    ensures a == b
  {
    hide Sorted, Separates;
    if a == [] {
      assert |multiset(b)| == 0;
    } else {
      SortedHeads(leq, a, b);
      Tails(leq, a);
      Tails(leq, b);
      SortedUnique(leq, a[1..], b[1..]);
      HeadAndTail(a, b);
    }
  }

  /** Sorting forgets the order of its input. */
  lemma SortPermutation<T(!new)>(leq: (T, T) -> bool, a: seq<T>, b: seq<T>)
    requires TotalPreorder(leq) && multiset(a) == multiset(b) && Separates(leq, a)
    ensures Sort(leq, a) == Sort(leq, b)
  {
    SortIsSorted(leq, a);
    SortIsSorted(leq, b);
    forall x | x in Sort(leq, a) ensures x in a {
      assert x in multiset(Sort(leq, a));
      assert x in multiset(a);
    }
    SortedUnique(leq, Sort(leq, a), Sort(leq, b));
  }

  /** Sorting leaves a sorted sequence alone. */
  lemma {:induction false} SortFixpoint<T(!new)>(leq: (T, T) -> bool, s: seq<T>)
    requires TotalPreorder(leq) && Sorted(leq, s)
    ensures Sort(leq, s) == s
  {
    if s != [] {
      SortFixpoint(leq, s[1..]);
      assert leq(s[0], s[0]);
      assert s == [s[0]] + s[1..];
    }
  }

  lemma SortMembers<T(!new)>(leq: (T, T) -> bool, s: seq<T>)
    requires TotalPreorder(leq)
    ensures forall x :: x in Sort(leq, s) <==> x in s
  {
    SortIsSorted(leq, s);
    forall x ensures x in Sort(leq, s) <==> x in s {
      assert x in Sort(leq, s) <==> x in multiset(Sort(leq, s));
      assert x in s <==> x in multiset(s);
    }
  }

  ghost predicate Distinct<T>(s: seq<T>) {
    forall i, j :: 0 <= i < j < |s| ==> s[i] != s[j]
  }

  /** Duplicate-freedom is visible in the multiset, so it survives reordering. */
  lemma {:induction false} DistinctCounts<T(!new)>(s: seq<T>)
    ensures Distinct(s) <==> forall x :: multiset(s)[x] <= 1
  {
    if s != [] {
      var front, last := s[..|s| - 1], s[|s| - 1];
      DistinctCounts(front);
      assert s == front + [last];
      assert forall x :: multiset(s)[x] == multiset(front)[x] + if x == last then 1 else 0;
      assert multiset(front)[last] == 0 <==> last !in front;
      if Distinct(s) {
        assert Distinct(front) && last !in front;
      } else if Distinct(front) {
        assert last in front;
        assert multiset(s)[last] >= 2;
      } else {
        var x :| multiset(front)[x] > 1;
        assert multiset(s)[x] > 1;
      }
    }
  }

  /** Duplicate-free sequences of the same elements are permutations of each other. */
  lemma DistinctSameMembers<T(!new)>(a: seq<T>, b: seq<T>)
    requires Distinct(a) && Distinct(b) && forall x :: x in a <==> x in b
    ensures multiset(a) == multiset(b)
  {
    DistinctCounts(a);
    DistinctCounts(b);
    forall x ensures multiset(a)[x] == multiset(b)[x] {
      assert x in a <==> multiset(a)[x] > 0;
      assert x in b <==> multiset(b)[x] > 0;
    }
  }

  /** `s` lists exactly the members of `keys`, once each. */
  ghost predicate Enumerates<T(!new)>(s: seq<T>, keys: set<T>) {
    Distinct(s) && forall p :: p in s <==> p in keys
  }
}
