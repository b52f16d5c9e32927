/**
  coverage_enumerator.go's `coveragePairwise`: a greedy search for a pairwise covering array. The
  uncovered pairs live in one array that is compacted in place after every test case.
 */
module Pairwise {
  import opened Sets
  import opened Sorting

  datatype Pair = Pair(d1: int, d2: int, v1: int, v2: int)

  type Case = seq<int>

  predicate ValidPair(sizes: seq<int>, p: Pair) {
    0 <= p.d1 < p.d2 < |sizes| && 0 <= p.v1 < sizes[p.d1] && 0 <= p.v2 < sizes[p.d2]
  }

  /** The lexicographic order pairs are listed in. */
  predicate Before(p: Pair, q: Pair) {
    p.d1 < q.d1 || (p.d1 == q.d1 && (p.d2 < q.d2 || (p.d2 == q.d2 && (p.v1 < q.v1 || (p.v1 == q.v1 && p.v2 < q.v2)))))
  }

  ghost predicate Ascending(pairs: seq<Pair>) {
    forall i, j :: 0 <= i < j < |pairs| ==> Before(pairs[i], pairs[j])
  }

  predicate InRange(sizes: seq<int>, c: Case) {
    |c| == |sizes| && forall d :: 0 <= d < |c| ==> 0 <= c[d] < sizes[d]
  }

  predicate Covers(c: Case, p: Pair) {
    0 <= p.d1 < |c| && 0 <= p.d2 < |c| && c[p.d1] == p.v1 && c[p.d2] == p.v2
  }

  predicate SomeCovers(cases: seq<Case>, p: Pair) {
    exists k :: 0 <= k < |cases| && Covers(cases[k], p)
  }

  predicate Positive(sizes: seq<int>) {
    forall d :: 0 <= d < |sizes| ==> sizes[d] > 0
  }

  // ---------------------------------------------------------------- the pairs to cover

  /** Pairs of dimension `d1` with dimensions before `d2`. */
  function RowSum(sizes: seq<int>, d1: nat, d2: nat): int
    requires d1 < d2 <= |sizes|
    decreases d2
  {
    if d2 == d1 + 1 then 0 else RowSum(sizes, d1, d2 - 1) + sizes[d1] * sizes[d2 - 1]
  }

  /** The sum of all pair products over dimensions before `d1`, each with all later ones. */
  function PairSum(sizes: seq<int>, d1: nat): int
    requires d1 < |sizes|
  {
    if d1 == 0 then 0 else PairSum(sizes, d1 - 1) + RowSum(sizes, d1 - 1, |sizes|)
  }

  /** The pairs listed so far: all valid pairs before the cursor, in order. */
  ghost predicate Listed(sizes: seq<int>, pairs: seq<Pair>, cursor: Pair) {
    && Ascending(pairs)
    && forall p :: p in pairs <==> ValidPair(sizes, p) && Before(p, cursor)
  }

  lemma ListNext(sizes: seq<int>, pairs: seq<Pair>, p: Pair)
    requires Listed(sizes, pairs, p) && ValidPair(sizes, p)
    ensures Listed(sizes, pairs + [p], p.(v2 := p.v2 + 1))
  {
    var next := pairs + [p];
    forall i, j | 0 <= i < j < |next| ensures Before(next[i], next[j]) {
      if j == |pairs| { assert pairs[i] in pairs; }
    }
    forall q ensures q in next <==> ValidPair(sizes, q) && Before(q, p.(v2 := p.v2 + 1)) {
      assert q in next <==> q in pairs || q == p;
    }
  }

  /** A cursor past the last value, or past the last dimension, may move on. */
  lemma MoveCursor(sizes: seq<int>, pairs: seq<Pair>, from: Pair, to: Pair)
    requires Listed(sizes, pairs, from)
    requires forall p :: ValidPair(sizes, p) ==> (Before(p, from) <==> Before(p, to))
    ensures Listed(sizes, pairs, to)
  {
  }

  /** All valid pairs in order. */
  ghost predicate IsPairList(sizes: seq<int>, pairs: seq<Pair>) {
    Ascending(pairs) && forall p :: p in pairs <==> ValidPair(sizes, p)
  }

  /** The four nested loops: all value pairs of all dimension pairs, in lexicographic order. */
  method InitialPairs(sizes: seq<int>) returns (pairs: seq<Pair>)
    requires |sizes| >= 2 && Positive(sizes)
    ensures IsPairList(sizes, pairs)
    ensures |pairs| == PairSum(sizes, |sizes| - 1)
  {
    var n := |sizes|;
    pairs := [];
    for d1 := 0 to n - 1
      invariant Listed(sizes, pairs, Pair(d1, d1 + 1, 0, 0))
      invariant |pairs| == PairSum(sizes, d1)
    {
      for d2 := d1 + 1 to n
        invariant Listed(sizes, pairs, Pair(d1, d2, 0, 0))
        invariant |pairs| == PairSum(sizes, d1) + RowSum(sizes, d1, d2)
      {
        pairs := ListValues(sizes, pairs, d1, d2);
      }
      MoveCursor(sizes, pairs, Pair(d1, n, 0, 0), Pair(d1 + 1, d1 + 2, 0, 0));
    }
    assert forall p :: ValidPair(sizes, p) ==> Before(p, Pair(n - 1, n, 0, 0));
  }

  /** The two inner loops, over the values of one pair of dimensions. */
  method ListValues(sizes: seq<int>, earlier: seq<Pair>, d1: nat, d2: nat) returns (pairs: seq<Pair>)
    requires d1 < d2 < |sizes| && Positive(sizes) && Listed(sizes, earlier, Pair(d1, d2, 0, 0))
    ensures Listed(sizes, pairs, Pair(d1, d2 + 1, 0, 0)) && |pairs| == |earlier| + sizes[d1] * sizes[d2]
  {
    hide Listed;
    pairs := earlier;
    for v1 := 0 to sizes[d1]
      invariant Listed(sizes, pairs, Pair(d1, d2, v1, 0))
      invariant |pairs| == |earlier| + v1 * sizes[d2]
    {
      for v2 := 0 to sizes[d2]
        invariant Listed(sizes, pairs, Pair(d1, d2, v1, v2))
        invariant |pairs| == |earlier| + v1 * sizes[d2] + v2
      {
        ListNext(sizes, pairs, Pair(d1, d2, v1, v2));
        pairs := pairs + [Pair(d1, d2, v1, v2)];
      }
      MoveCursor(sizes, pairs, Pair(d1, d2, v1, sizes[d2]), Pair(d1, d2, v1 + 1, 0));
      assert (v1 + 1) * sizes[d2] == v1 * sizes[d2] + sizes[d2];
    }
    MoveCursor(sizes, pairs, Pair(d1, d2, sizes[d1], 0), Pair(d1, d2 + 1, 0, 0));
  }

  // ---------------------------------------------------------------- one test case

  /** The value `v` at dimension `d` newly covers `p`, given the values chosen so far. */
  predicate Gains(tc: Case, d: int, v: int, p: Pair)
    requires 0 <= p.d1 < |tc| && 0 <= p.d2 < |tc|
  {
    || (p.d1 == d && tc[p.d2] != -1 && p.v1 == v && p.v2 == tc[p.d2])
    || (p.d2 == d && tc[p.d1] != -1 && p.v2 == v && p.v1 == tc[p.d1])
  }

  /** What a gain is: while `d` is open, the pair is not covered yet and choosing `v` there covers it. */
  lemma GainIsNewCover(tc: Case, d: nat, v: int, p: Pair)
    requires d < |tc| && tc[d] == -1 && v >= 0 && 0 <= p.d1 < p.d2 < |tc| && p.v1 >= 0 && p.v2 >= 0
    ensures Gains(tc, d, v, p) <==> Covers(tc[d := v], p) && !Covers(tc, p)
  {
  }

  predicate PairsOver(pairs: seq<Pair>, n: int) {
    forall k :: 0 <= k < |pairs| ==> 0 <= pairs[k].d1 < n && 0 <= pairs[k].d2 < n
  }

  function Gain(pairs: seq<Pair>, tc: Case, d: int, v: int): nat
    requires PairsOver(pairs, |tc|)
  {
    if pairs == [] then 0
    else Gain(pairs[..|pairs| - 1], tc, d, v) + if Gains(tc, d, v, pairs[|pairs| - 1]) then 1 else 0
  }

  /** `v` covers most of the pairs, and is the lowest value that does. */
  ghost predicate Best(pairs: seq<Pair>, tc: Case, d: int, size: int, v: int)
    requires PairsOver(pairs, |tc|)
  {
    && 0 <= v < size
    && (forall u :: 0 <= u < size ==> Gain(pairs, tc, d, u) <= Gain(pairs, tc, d, v))
    && (forall u :: 0 <= u < v ==> Gain(pairs, tc, d, u) < Gain(pairs, tc, d, v))
  }

  /** The search for the best value at one dimension. */
  method BestValue(uncovered: array<Pair>, len: nat, tc: array<int>, d: nat, size: int) returns (bestV: int)
    requires len <= uncovered.Length && PairsOver(uncovered[..len], tc.Length) && d < tc.Length && size > 0
    ensures Best(uncovered[..len], tc[..], d, size, bestV)
  {
    bestV := 0;
    var bestCount: int := -1;
    ghost var pairs, chosen := uncovered[..len], tc[..];
    for v := 0 to size
      invariant v == 0 ==> bestV == 0 && bestCount == -1
      invariant v > 0 ==> 0 <= bestV < v && bestCount == Gain(pairs, chosen, d, bestV)
      invariant forall u :: 0 <= u < v ==> Gain(pairs, chosen, d, u) <= bestCount
      invariant forall u :: 0 <= u < bestV ==> Gain(pairs, chosen, d, u) < bestCount
    {
      var count := CountGain(uncovered, len, tc, d, v);
      if count > bestCount {
        bestCount := count;
        bestV := v;
      }
    }
  }

  method CountGain(uncovered: array<Pair>, len: nat, tc: array<int>, d: nat, v: int) returns (count: nat)
    requires len <= uncovered.Length && PairsOver(uncovered[..len], tc.Length)
    ensures count == Gain(uncovered[..len], tc[..], d, v)
  {
    count := 0;
    for k := 0 to len
      invariant count == Gain(uncovered[..k], tc[..], d, v)
    {
      assert uncovered[..k + 1][..k] == uncovered[..k];
      assert uncovered[..len][k] == uncovered[k];
      if Gains(tc[..], d, v, uncovered[k]) {
        count := count + 1;
      }
    }
  }

  /** The case as it stands when the loop reaches dimension `d`. */
  function Partial(c: Case, seed: Pair, d: int): (partial: Case)
    ensures |partial| == |c|
  {
    seq(|c|, e requires 0 <= e < |c| => if e < d || e == seed.d1 || e == seed.d2 then c[e] else -1)
  }

  /** The case around the first pair whose other values are each the best choice in turn. */
  ghost predicate Greedy(sizes: seq<int>, pairs: seq<Pair>, c: Case) {
    && pairs != [] && PairsOver(pairs, |c|) && InRange(sizes, c) && Covers(c, pairs[0])
    && forall d :: 0 <= d < |c| && d != pairs[0].d1 && d != pairs[0].d2 ==>
         Best(pairs, Partial(c, pairs[0], d), d, sizes[d], c[d])
  }

  /** Build one case around the first uncovered pair. */
  method NextCase(uncovered: array<Pair>, len: nat, sizes: seq<int>) returns (tc: array<int>)
    requires 0 < len <= uncovered.Length && Positive(sizes)
    requires forall k :: 0 <= k < len ==> ValidPair(sizes, uncovered[k])
    ensures fresh(tc) && Greedy(sizes, uncovered[..len], tc[..])
  {
    var n := |sizes|;
    var seed := uncovered[0];
    ghost var pairs := uncovered[..len];
    tc := new int[n](_ => -1);
    tc[seed.d1] := seed.v1;
    tc[seed.d2] := seed.v2;
    for d := 0 to n
      invariant tc[seed.d1] == seed.v1 && tc[seed.d2] == seed.v2
      invariant forall e :: 0 <= e < n ==> if e < d || e == seed.d1 || e == seed.d2 then 0 <= tc[e] < sizes[e] else tc[e] == -1
      invariant forall e :: 0 <= e < d && e != seed.d1 && e != seed.d2 ==>
        Best(pairs, Partial(tc[..], seed, e), e, sizes[e], tc[e])
    {
      hide Best;
      if tc[d] != -1 {
        continue;
      }
      assert tc[..] == Partial(tc[..], seed, d);
      var bestV := BestValue(uncovered, len, tc, d, sizes[d]);
      BestInRange(pairs, tc[..], d, sizes[d], bestV);
      ghost var before := tc[..];
      tc[d] := bestV;
      forall e | 0 <= e <= d ensures Partial(tc[..], seed, e) == Partial(before, seed, e) || e == seed.d1 || e == seed.d2 {
      }
    }
  }

  lemma BestInRange(pairs: seq<Pair>, tc: Case, d: int, size: int, v: int)
    requires PairsOver(pairs, |tc|) && Best(pairs, tc, d, size, v)
    ensures 0 <= v < size
  {
  }

  lemma BestIsUnique(pairs: seq<Pair>, tc: Case, d: int, size: int, v: int, w: int)
    requires PairsOver(pairs, |tc|) && Best(pairs, tc, d, size, v) && Best(pairs, tc, d, size, w)
    ensures v == w
  {
    var gainV, gainW := Gain(pairs, tc, d, v), Gain(pairs, tc, d, w);
    assert gainV == gainW;
  }

  /** The greedy choice leaves no freedom. */
  lemma {:induction false} GreedyAgree(sizes: seq<int>, pairs: seq<Pair>, a: Case, b: Case, d: nat)
    requires Greedy(sizes, pairs, a) && Greedy(sizes, pairs, b) && d <= |sizes|
    ensures forall e :: 0 <= e < d ==> a[e] == b[e]
  {
    if d > 0 {
      GreedyAgree(sizes, pairs, a, b, d - 1);
      var seed := pairs[0];
      if d - 1 != seed.d1 && d - 1 != seed.d2 {
        assert Partial(a, seed, d - 1) == Partial(b, seed, d - 1);
        BestIsUnique(pairs, Partial(a, seed, d - 1), d - 1, sizes[d - 1], a[d - 1], b[d - 1]);
      }
      assert a[d - 1] == b[d - 1];
    }
  }

  // ---------------------------------------------------------------- compaction

  /** The pairs a case leaves uncovered, in order. */
  function Remaining(pairs: seq<Pair>, c: Case): (rest: seq<Pair>)
    ensures |rest| <= |pairs|
  {
    if pairs == [] then []
    else Remaining(pairs[..|pairs| - 1], c) + if Covers(c, pairs[|pairs| - 1]) then [] else [pairs[|pairs| - 1]]
  }

  /** The in-place filter: survivors move to the front of the same array. */
  method Compact(uncovered: array<Pair>, len: nat, tc: array<int>) returns (next: nat)
    requires len <= uncovered.Length && PairsOver(uncovered[..len], tc.Length)
    modifies uncovered
    ensures next <= len && uncovered[..next] == Remaining(old(uncovered[..len]), tc[..])
  {
    ghost var start := uncovered[..len];
    next := 0;
    for k := 0 to len
      invariant next <= k && uncovered[..next] == Remaining(start[..k], tc[..])
      invariant forall i :: k <= i < len ==> uncovered[i] == start[i]
    {
      assert start[..k + 1][..k] == start[..k];
      var p := uncovered[k];
      assert p == start[k];
      if tc[p.d1] == p.v1 && tc[p.d2] == p.v2 {
        continue;
      }
      uncovered[next] := p;
      next := next + 1;
      assert uncovered[..next] == uncovered[..next - 1] + [p];
    }
    assert start[..len] == start;
  }

  lemma {:induction false} RemainingMeans(pairs: seq<Pair>, c: Case)
    ensures forall p :: p in Remaining(pairs, c) <==> p in pairs && !Covers(c, p)
    ensures Ascending(pairs) ==> Ascending(Remaining(pairs, c))
  {
    if pairs != [] {
      var front, last := pairs[..|pairs| - 1], pairs[|pairs| - 1];
      RemainingMeans(front, c);
      assert pairs == front + [last];
      if Ascending(pairs) {
        var rest := Remaining(front, c);
        forall i | 0 <= i < |rest| ensures Before(rest[i], last) {
          assert rest[i] in front;
        }
      }
    }
  }

  lemma {:induction false} RemainingShrinks(pairs: seq<Pair>, c: Case, p: Pair)
    requires p in pairs && Covers(c, p)
    ensures |Remaining(pairs, c)| < |pairs|
  {
    var front, last := pairs[..|pairs| - 1], pairs[|pairs| - 1];
    assert pairs == front + [last];
    if p in front {
      RemainingShrinks(front, c, p);
    }
  }

  // ---------------------------------------------------------------- the whole search

  /** What holds of the cases found while `uncovered` is still to be covered. */
  ghost predicate Searching(sizes: seq<int>, cases: seq<Case>, uncovered: seq<Pair>) {
    && (forall k :: 0 <= k < |cases| ==> InRange(sizes, cases[k]))
    && Distinct(cases)
    && Ascending(uncovered)
    && forall p :: p in uncovered <==> ValidPair(sizes, p) && !SomeCovers(cases, p)
  }

  lemma SearchStep(sizes: seq<int>, cases: seq<Case>, uncovered: seq<Pair>, c: Case)
    requires Searching(sizes, cases, uncovered) && uncovered != []
    requires InRange(sizes, c) && Covers(c, uncovered[0])
    ensures Searching(sizes, cases + [c], Remaining(uncovered, c))
    ensures |Remaining(uncovered, c)| < |uncovered|
  {
    var seed := uncovered[0];
    assert seed in uncovered;
    RemainingShrinks(uncovered, c, seed);
    RemainingMeans(uncovered, c);
    var next := cases + [c];
    forall k | 0 <= k < |cases| ensures cases[k] != c {
      assert !Covers(cases[k], seed);
    }
    forall p ensures SomeCovers(next, p) <==> SomeCovers(cases, p) || Covers(c, p) {
      if SomeCovers(cases, p) {
        var k :| 0 <= k < |cases| && Covers(cases[k], p);
        assert next[k] == cases[k];
      }
      if Covers(c, p) { assert next[|cases|] == c; }
    }
  }

  /** What the first cases leave uncovered. */
  function Left(pairs: seq<Pair>, cases: seq<Case>): seq<Pair> {
    if cases == [] then pairs else Remaining(Left(pairs, cases[..|cases| - 1]), cases[|cases| - 1])
  }

  /** Every case is the greedy one for what earlier cases left uncovered. */
  ghost predicate GreedyRun(sizes: seq<int>, pairs: seq<Pair>, cases: seq<Case>)
    decreases cases
  {
    cases == [] || (GreedyRun(sizes, pairs, cases[..|cases| - 1])
                    && Greedy(sizes, Left(pairs, cases[..|cases| - 1]), cases[|cases| - 1]))
  }

  lemma GreedyRunStep(sizes: seq<int>, pairs: seq<Pair>, cases: seq<Case>, c: Case)
    requires GreedyRun(sizes, pairs, cases) && Greedy(sizes, Left(pairs, cases), c)
    ensures GreedyRun(sizes, pairs, cases + [c])
    ensures Left(pairs, cases + [c]) == Remaining(Left(pairs, cases), c)
  {
    assert (cases + [c])[..|cases|] == cases;
  }

  lemma {:induction false} GreedyPrefix(sizes: seq<int>, pairs: seq<Pair>, a: seq<Case>, b: seq<Case>)
    requires GreedyRun(sizes, pairs, a) && GreedyRun(sizes, pairs, b) && |a| <= |b|
    ensures a == b[..|a|]
    decreases |b|
  {
    if a == [] {
    } else if |a| < |b| {
      GreedyPrefix(sizes, pairs, a, b[..|b| - 1]);
      assert b[..|b| - 1][..|a|] == b[..|a|];
    } else {
      var k := |a| - 1;
      GreedyPrefix(sizes, pairs, a[..k], b[..k]);
      LastAgrees(sizes, Left(pairs, a[..k]), a, b);
    }
  }

  lemma LastAgrees(sizes: seq<int>, left: seq<Pair>, a: seq<Case>, b: seq<Case>)
    requires a != [] && |a| == |b| && a[..|a| - 1] == b[..|a| - 1]
    requires Greedy(sizes, left, a[|a| - 1]) && Greedy(sizes, left, b[|a| - 1])
    ensures a == b[..|a|]
  {
    var k := |a| - 1;
    GreedyAgree(sizes, left, a[k], b[k], |sizes|);
    assert a[k] == b[k];
    assert a == a[..k] + [a[k]] && b[..|a|] == b[..k] + [b[k]];
  }

  /** The array is a function of the sizes: two complete runs give the same cases. */
  lemma GreedyRunUnique(sizes: seq<int>, pairs: seq<Pair>, a: seq<Case>, b: seq<Case>)
    requires GreedyRun(sizes, pairs, a) && GreedyRun(sizes, pairs, b)
    requires Left(pairs, a) == [] && Left(pairs, b) == []
    ensures a == b
  {
    if |a| <= |b| {
      GreedyPrefix(sizes, pairs, a, b);
      if |a| < |b| { NothingLeftNothingMore(sizes, pairs, b, |a|); }
    } else {
      GreedyPrefix(sizes, pairs, b, a);
      NothingLeftNothingMore(sizes, pairs, a, |b|);
    }
  }

  lemma {:induction false} NothingLeftNothingMore(sizes: seq<int>, pairs: seq<Pair>, cases: seq<Case>, k: nat)
    requires GreedyRun(sizes, pairs, cases) && k < |cases|
    ensures Left(pairs, cases[..k]) != []
    decreases |cases|
  {
    if k < |cases| - 1 {
      assert cases[..|cases| - 1][..k] == cases[..k];
      NothingLeftNothingMore(sizes, pairs, cases[..|cases| - 1], k);
    }
  }

  /** In two dimensions each case covers one pair, so the pairs are the cases. */
  ghost predicate TwoDimensions(pairs: seq<Pair>, cases: seq<Case>, uncovered: seq<Pair>) {
    && |cases| + |uncovered| == |pairs|
    && uncovered == pairs[|cases|..]
    && forall k :: 0 <= k < |cases| ==> cases[k] == [pairs[k].v1, pairs[k].v2]
  }

  lemma TwoDimensionsStep(sizes: seq<int>, pairs: seq<Pair>, cases: seq<Case>, uncovered: seq<Pair>, c: Case)
    requires |sizes| == 2 && Ascending(pairs) && forall p :: p in pairs ==> ValidPair(sizes, p)
    requires TwoDimensions(pairs, cases, uncovered) && uncovered != []
    requires InRange(sizes, c) && Covers(c, uncovered[0])
    ensures TwoDimensions(pairs, cases + [c], Remaining(uncovered, c))
  {
    var seed := uncovered[0];
    assert seed == pairs[|cases|] && seed in pairs;
    assert seed.d1 == 0 && seed.d2 == 1 && c == [seed.v1, seed.v2];
    forall p | p in uncovered[1..] ensures !Covers(c, p) {
      var k :| 0 <= k < |uncovered[1..]| && uncovered[1..][k] == p;
      assert p == pairs[|cases| + 1 + k] && p in pairs;
      assert Before(seed, p);
    }
    assert uncovered == [seed] + uncovered[1..];
    RemainingTail(seed, uncovered[1..], c);
    assert pairs[|cases|..][1..] == pairs[|cases| + 1..];
  }

  lemma {:induction false} RemainingTail(p: Pair, rest: seq<Pair>, c: Case)
    requires Covers(c, p) && forall q :: q in rest ==> !Covers(c, q)
    ensures Remaining([p] + rest, c) == rest
  {
    if rest == [] {
      assert ([p] + rest)[..0] == [];
    } else {
      var front, last := rest[..|rest| - 1], rest[|rest| - 1];
      assert ([p] + rest)[..|rest|] == [p] + front;
      assert last in rest;
      RemainingTail(p, front, c);
    }
  }

  /** The order of the two-dimensional product. */
  predicate CaseBefore(a: Case, b: Case) {
    |a| == 2 && |b| == 2 && (a[0] < b[0] || (a[0] == b[0] && a[1] < b[1]))
  }

  lemma {:induction false} PairListUnique(a: seq<Pair>, b: seq<Pair>)
    requires Ascending(a) && Ascending(b) && forall p :: p in a <==> p in b
    ensures a == b
  {
    assert b != [] ==> b[0] in a;
    if a != [] {
      assert a[0] in a && a[0] in b;
      assert b[0] in b && b[0] in a;
      var a', b' := a[1..], b[1..];
      TailMembers(a);
      TailMembers(b);
      assert a[0] == b[0];
      PairListUnique(a', b');
      assert a == [a[0]] + a' && b == [b[0]] + b';
    }
  }

  lemma TailMembers(a: seq<Pair>)
    requires Ascending(a) && a != []
    ensures Ascending(a[1..]) && forall p :: p in a[1..] <==> p in a && p != a[0]
    ensures forall p :: p in a ==> p == a[0] || Before(a[0], p)
  {
    assert a == [a[0]] + a[1..];
    forall p | p in a[1..] ensures Before(a[0], p) {
      var k :| 0 <= k < |a[1..]| && a[1..][k] == p;
      assert p == a[k + 1];
    }
  }

  /** The result for some sizes, as a relation that at most one list of cases satisfies. */
  ghost predicate GreedyArray(sizes: seq<int>, cases: seq<Case>) {
    exists pairs :: IsPairList(sizes, pairs) && GreedyRun(sizes, pairs, cases) && Left(pairs, cases) == []
  }

  lemma GreedyArrayUnique(sizes: seq<int>, a: seq<Case>, b: seq<Case>)
    requires GreedyArray(sizes, a) && GreedyArray(sizes, b)
    ensures a == b
  {
    var p :| IsPairList(sizes, p) && GreedyRun(sizes, p, a) && Left(p, a) == [];
    var q :| IsPairList(sizes, q) && GreedyRun(sizes, q, b) && Left(q, b) == [];
    PairListUnique(p, q);
    GreedyRunUnique(sizes, p, a, b);
  }

  /** Everything the loop keeps. */
  ghost predicate Progress(sizes: seq<int>, pairs: seq<Pair>, cases: seq<Case>, uncovered: seq<Pair>) {
    && Searching(sizes, cases, uncovered)
    && |cases| + |uncovered| <= |pairs|
    && GreedyRun(sizes, pairs, cases) && Left(pairs, cases) == uncovered
    && (|sizes| == 2 ==> TwoDimensions(pairs, cases, uncovered))
  }

  lemma ProgressStep(sizes: seq<int>, pairs: seq<Pair>, cases: seq<Case>, uncovered: seq<Pair>, c: Case)
    requires IsPairList(sizes, pairs) && Progress(sizes, pairs, cases, uncovered) && Greedy(sizes, uncovered, c)
    ensures Progress(sizes, pairs, cases + [c], Remaining(uncovered, c)) && |Remaining(uncovered, c)| < |uncovered|
  {
    hide Searching, TwoDimensions, GreedyRun, Left, Greedy, Remaining;
    GreedyCovers(sizes, uncovered, c);
    GreedyRunStep(sizes, pairs, cases, c);
    SearchStep(sizes, cases, uncovered, c);
    if |sizes| == 2 { TwoDimensionsStep(sizes, pairs, cases, uncovered, c); }
  }

  /** The greedy loop over the remaining pairs. */
  method CoverPairs(sizes: seq<int>) returns (cases: seq<Case>)
    requires |sizes| >= 2 && Positive(sizes)
    ensures Searching(sizes, cases, [])
    ensures GreedyArray(sizes, cases)
    ensures |cases| <= PairSum(sizes, |sizes| - 1)
    ensures |sizes| == 2 ==> |cases| == PairSum(sizes, 1) && forall i, j :: 0 <= i < j < |cases| ==> CaseBefore(cases[i], cases[j])
  {
    hide IsPairList, Searching, GreedyArray, PairSum, CaseBefore;
    var pairs := InitialPairs(sizes);
    cases := CoverAll(sizes, pairs);
    AllCovered(sizes, pairs, cases);
  }

  method CoverAll(sizes: seq<int>, pairs: seq<Pair>) returns (cases: seq<Case>)
    requires Positive(sizes) && IsPairList(sizes, pairs)
    ensures Progress(sizes, pairs, cases, [])
  {
    hide Progress, Positive, Greedy, IsPairList, Remaining, PairsOver, Covers, InRange;
    var uncovered := new Pair[|pairs|](k requires 0 <= k < |pairs| => pairs[k]);
    var len := |pairs|;
    cases := [];
    assert uncovered[..len] == pairs;
    NothingCoveredYet(sizes, pairs);
    while len > 0
      invariant 0 <= len <= uncovered.Length
      invariant Progress(sizes, pairs, cases, uncovered[..len])
      decreases len
    {
      ghost var before := uncovered[..len];
      UncoveredAreValid(sizes, pairs, cases, before);
      var tc := NextCase(uncovered, len, sizes);
      GreedyCovers(sizes, before, tc[..]);
      ProgressStep(sizes, pairs, cases, before, tc[..]);
      var next := Compact(uncovered, len, tc);
      len := next;
      cases := cases + [tc[..]];
    }
    assert uncovered[..0] == [];
  }

  lemma NothingCoveredYet(sizes: seq<int>, pairs: seq<Pair>)
    requires IsPairList(sizes, pairs)
    ensures Progress(sizes, pairs, [], pairs)
  {
  }

  lemma AllCovered(sizes: seq<int>, pairs: seq<Pair>, cases: seq<Case>)
    requires IsPairList(sizes, pairs) && Progress(sizes, pairs, cases, [])
    ensures Searching(sizes, cases, []) && GreedyArray(sizes, cases) && |cases| <= |pairs|
    ensures |sizes| == 2 ==> |cases| == |pairs| && forall i, j :: 0 <= i < j < |cases| ==> CaseBefore(cases[i], cases[j])
  {
    if |sizes| == 2 { ProductOrder(sizes, pairs, cases); }
  }

  lemma GreedyCovers(sizes: seq<int>, pairs: seq<Pair>, c: Case)
    requires Greedy(sizes, pairs, c)
    ensures InRange(sizes, c) && pairs != [] && Covers(c, pairs[0]) && PairsOver(pairs, |c|)
  {
  }

  lemma UncoveredAreValid(sizes: seq<int>, pairs: seq<Pair>, cases: seq<Case>, uncovered: seq<Pair>)
    requires Progress(sizes, pairs, cases, uncovered)
    ensures forall k :: 0 <= k < |uncovered| ==> ValidPair(sizes, uncovered[k])
  {
    forall k | 0 <= k < |uncovered| ensures ValidPair(sizes, uncovered[k]) {
      assert uncovered[k] in uncovered;
    }
  }

  lemma ProductOrder(sizes: seq<int>, pairs: seq<Pair>, cases: seq<Case>)
    requires |sizes| == 2 && Ascending(pairs) && forall p :: p in pairs ==> ValidPair(sizes, p)
    requires TwoDimensions(pairs, cases, [])
    ensures |cases| == |pairs| && forall i, j :: 0 <= i < j < |cases| ==> CaseBefore(cases[i], cases[j])
  {
    forall i, j | 0 <= i < j < |cases| ensures CaseBefore(cases[i], cases[j]) {
      assert pairs[i] in pairs && pairs[j] in pairs && Before(pairs[i], pairs[j]);
    }
  }

  /**
    coveragePairwise. Every value pair of every two dimensions is in some case, every value is in
    range, no case is repeated; the number of cases is at most the sum of the pair products; two
    dimensions give the Cartesian product in order. No dimensions, or an empty one, give nothing.
   */
  method CoveragePairwise(sizes: seq<int>) returns (cases: seq<Case>)
    ensures |sizes| == 0 || !Positive(sizes) ==> cases == []
    ensures Positive(sizes) && |sizes| == 1 ==> |cases| == sizes[0] && forall i :: 0 <= i < |cases| ==> cases[i] == [i]
    ensures Positive(sizes) && |sizes| >= 2 ==> Searching(sizes, cases, []) && GreedyArray(sizes, cases)
    ensures Positive(sizes) && |sizes| >= 2 ==> |cases| <= PairSum(sizes, |sizes| - 1)
    ensures Positive(sizes) && |sizes| == 2 ==>
      |cases| == sizes[0] * sizes[1] && forall i, j :: 0 <= i < j < |cases| ==> CaseBefore(cases[i], cases[j])
  {
    var n := |sizes|;
    if n == 0 { return []; }
    for d := 0 to n
      invariant forall e :: 0 <= e < d ==> sizes[e] > 0
    {
      if sizes[d] <= 0 { return []; }
    }
    if n == 1 {
      cases := [];
      for i := 0 to sizes[0]
        invariant |cases| == i && forall k :: 0 <= k < i ==> cases[k] == [k]
      {
        cases := cases + [[i]];
      }
      return;
    }
    cases := CoverPairs(sizes);
    if n == 2 {
      assert PairSum(sizes, 1) == RowSum(sizes, 0, 2) == sizes[0] * sizes[1];
    }
  }

  // ---------------------------------------------------------------- how many cases are needed

  function Values(n: int): (values: set<int>)
    ensures forall v :: v in values <==> 0 <= v < n
  {
    if n <= 0 then {} else Values(n - 1) + {n - 1}
  }

  /** The values two dimensions can take together. */
  function Product(a: int, b: int): set<(int, int)> {
    set v1, v2 | v1 in Values(a) && v2 in Values(b) :: (v1, v2)
  }

  function Row(v: int, b: int): set<(int, int)> {
    set w | w in Values(b) :: (v, w)
  }

  lemma {:induction false} RowSize(v: int, b: nat)
    ensures |Row(v, b)| == b
  {
    if b > 0 {
      RowSize(v, b - 1);
      assert Values(b) == Values(b - 1) + {b - 1};
      assert Row(v, b) == Row(v, b - 1) + {(v, b - 1)};
    }
  }

  lemma {:induction false} ProductSize(a: nat, b: nat)
    ensures |Product(a, b)| == a * b
  {
    if a > 0 {
      ProductSize(a - 1, b);
      RowSize(a - 1, b);
      OneMoreRow(a, b);
      assert a * b == (a - 1) * b + b;
    } else {
      assert Product(a, b) == {};
    }
  }

  lemma OneMoreRow(a: int, b: int)
    requires a > 0
    ensures Product(a, b) == Product(a - 1, b) + Row(a - 1, b) && Product(a - 1, b) !! Row(a - 1, b)
  {
    assert Values(a) == Values(a - 1) + {a - 1};
  }

  /** The value pairs the cases show at two dimensions: at most one per case. */
  function Shown(cases: seq<Case>, d1: nat, d2: nat): set<(int, int)> {
    set k | 0 <= k < |cases| && d1 < |cases[k]| && d2 < |cases[k]| :: (cases[k][d1], cases[k][d2])
  }

  lemma {:induction false} ShownSize(cases: seq<Case>, d1: nat, d2: nat)
    ensures |Shown(cases, d1, d2)| <= |cases|
  {
    if cases != [] {
      var front, last := cases[..|cases| - 1], cases[|cases| - 1];
      ShownSize(front, d1, d2);
      var extra := if d1 < |last| && d2 < |last| then {(last[d1], last[d2])} else {};
      assert cases == front + [last];
      assert forall k :: 0 <= k < |front| ==> cases[k] == front[k];
      assert Shown(cases, d1, d2) <= Shown(front, d1, d2) + extra;
      SubsetSize(Shown(cases, d1, d2), Shown(front, d1, d2) + extra);
    }
  }

  /** No covering array is smaller than its largest pair product. */
  lemma AtLeastLargestProduct(sizes: seq<int>, cases: seq<Case>, d1: nat, d2: nat)
    requires Positive(sizes) && d1 < d2 < |sizes|
    requires forall p :: ValidPair(sizes, p) ==> SomeCovers(cases, p)
    ensures |cases| >= sizes[d1] * sizes[d2]
  {
    forall v1, v2 | v1 in Values(sizes[d1]) && v2 in Values(sizes[d2]) ensures (v1, v2) in Shown(cases, d1, d2) {
      assert ValidPair(sizes, Pair(d1, d2, v1, v2));
    }
    assert Product(sizes[d1], sizes[d2]) <= Shown(cases, d1, d2);
    SubsetSize(Product(sizes[d1], sizes[d2]), Shown(cases, d1, d2));
    ProductSize(sizes[d1], sizes[d2]);
    ShownSize(cases, d1, d2);
  }

  /** What the search guarantees once nothing is uncovered. */
  lemma SearchIsCovering(sizes: seq<int>, cases: seq<Case>)
    requires Positive(sizes) && Searching(sizes, cases, [])
    ensures forall p :: ValidPair(sizes, p) ==> SomeCovers(cases, p)
    ensures forall d1, d2 :: 0 <= d1 < d2 < |sizes| ==> |cases| >= sizes[d1] * sizes[d2]
  {
    forall p | ValidPair(sizes, p) ensures SomeCovers(cases, p) {
      assert p !in [];
    }
    forall d1, d2 | 0 <= d1 < d2 < |sizes| ensures |cases| >= sizes[d1] * sizes[d2] {
      AtLeastLargestProduct(sizes, cases, d1, d2);
    }
  }
}
