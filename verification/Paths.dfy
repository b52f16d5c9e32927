/**
  Rooted slash paths. The repository handles them as cleaned strings; the model handles them
  as sequences of components. This module proves once that the string operations used by
  mutate.go and operations.go (`path.Clean`, `path.Dir`, `path.Join`, the prefix test of
  `isChildMutationPath`, the suffix splice of a directory rename) are the obvious operations
  on component sequences.
 */
module Paths {
  import opened Strings
  import opened Sorting

  type Path = seq<string>

  /** A component that survives `path.Clean` unchanged. */
  predicate ValidName(c: string) {
    c != "" && c != "." && c != ".." && '/' !in c && NUL !in c
  }

  /** What cleaning leaves of any string; only a NUL may be left in a component. */
  predicate Plain(p: Path) {
    forall i :: 0 <= i < |p| ==> p[i] != "" && p[i] != "." && p[i] != ".." && '/' !in p[i]
  }

  predicate Canonical(p: Path) {
    forall i :: 0 <= i < |p| ==> ValidName(p[i])
  }

  function Slashed(p: Path): string {
    if p == [] then "" else "/" + p[0] + Slashed(p[1..])
  }

  lemma SlashedSnoc(q: Path, name: string)
    ensures Slashed(q + [name]) == Slashed(q) + "/" + name
  {
    SlashedConcat(q, [name]);
    assert Slashed([name]) == "/" + name;
  }

  /** The string form of a path. */
  function Render(p: Path): string {
    if p == [] then "/" else Slashed(p)
  }

  function Parent(p: Path): Path
    requires p != []
  {
    p[..|p| - 1]
  }

  function Last(p: Path): string
    requires p != []
  {
    p[|p| - 1]
  }

  /** `q` lies strictly below `p`. */
  predicate Below(q: Path, p: Path) {
    p < q
  }

  // ---------------------------------------------------------------- path.Clean

  /** Follow components from `at`: "" and "." stay, ".." climbs but never above the root. */
  function Walk(at: Path, components: seq<string>): Path
    decreases components
  {
    if components == [] then at
    else if components[0] == "" || components[0] == "." then Walk(at, components[1..])
    else if components[0] == ".." then Walk(if at == [] then [] else Parent(at), components[1..])
    else Walk(at + [components[0]], components[1..])
  }

  /** path.Clean on a rooted string, as components. */
  function Clean(raw: string): Path {
    Walk([], Split(raw, '/'))
  }

  lemma {:induction false} WalkConcat(at: Path, a: seq<string>, b: seq<string>)
    ensures Walk(at, a + b) == Walk(Walk(at, a), b)
    decreases a
  {
    if a == [] {
      assert a + b == b;
    } else {
      var next := if a[0] == "" || a[0] == "." then at
                  else if a[0] == ".." then (if at == [] then [] else Parent(at))
                  else at + [a[0]];
      WalkConcat(next, a[1..], b);
      assert (a + b)[1..] == a[1..] + b;
    }
  }

  lemma {:induction false} WalkNames(at: Path, p: Path)
    requires Canonical(p)
    ensures Walk(at, p) == at + p
    decreases p
  {
    if p != [] {
      assert ValidName(p[0]);
      WalkNames(at + [p[0]], p[1..]);
      assert at + [p[0]] + p[1..] == at + p;
    }
  }

  /** Walking keeps plain paths plain, and paths without NUL free of it. */
  lemma {:induction false} WalkPlain(at: Path, components: seq<string>)
    requires Plain(at) && forall i :: 0 <= i < |components| ==> '/' !in components[i]
    ensures Plain(Walk(at, components))
    ensures Canonical(at) && (forall i :: 0 <= i < |components| ==> NUL !in components[i]) ==> Canonical(Walk(at, components))
    decreases components
  {
    if components != [] {
      var c := components[0];
      if c == "" || c == "." {
        WalkPlain(at, components[1..]);
      } else if c == ".." {
        WalkPlain(if at == [] then [] else Parent(at), components[1..]);
      } else {
        WalkPlain(at + [c], components[1..]);
      }
    }
  }

  /** Cleaning a rooted string yields a plain path, and without NUL a canonical one. */
  lemma CleanCanonical(raw: string)
    ensures Plain(Clean(raw))
    ensures NUL !in raw ==> Canonical(Clean(raw))
  {
    var parts := Split(raw, '/');
    forall i | 0 <= i < |parts|
      ensures '/' !in parts[i] && (NUL !in raw ==> NUL !in parts[i])
    {
      forall c | c in parts[i] ensures c != '/' && c in raw { SplitPart(raw, '/', i, c); }
    }
    hide Split;
    WalkPlain([], parts);
  }

  // ---------------------------------------------------------------- the string form

  lemma {:induction false} SlashedConcat(p: Path, q: Path)
    ensures Slashed(p + q) == Slashed(p) + Slashed(q)
  {
    if p == [] {
      assert p + q == q;
    } else {
      SlashedConcat(p[1..], q);
      assert (p + q)[0] == p[0] && (p + q)[1..] == p[1..] + q;
    }
  }

  lemma {:induction false} SplitSlashed(p: Path)
    requires Canonical(p)
    ensures Split(Slashed(p), '/') == [""] + p
  {
    if p != [] {
      var q, name := Parent(p), Last(p);
      assert ValidName(name);
      hide ValidName, Split, Slashed;
      SplitSlashed(q);
      SplitWhole(name, '/');
      SplitConcat(Slashed(q), name, '/');
      SlashedSnoc(q, name);
      assert p == q + [name];
    }
  }

  /** Cleaning undoes rendering: the string form determines the path. */
  lemma CleanRender(p: Path)
    requires Canonical(p)
    ensures Clean(Render(p)) == p
  {
    SplitSlashed(p);
    WalkNames([], p);
    if p == [] {
      SplitCons('/', "", '/');
      assert Split(Render(p), '/') == ["", ""];
      assert ["", ""][1..] == [""];
    } else {
      assert ([""] + p)[1..] == p;
    }
  }

  lemma RenderInjective(p: Path, q: Path)
    requires Canonical(p) && Canonical(q) && Render(p) == Render(q)
    ensures p == q
  {
    CleanRender(p);
    CleanRender(q);
  }

  // ---------------------------------------------------------------- mutate.go's string code

  /** mutate.go's isChildMutationPath. */
  predicate IsChildString(path: string, parent: string) {
    if parent == "/" then path != "/" else parent + "/" <= path
  }

  /** The string test is the strict prefix order on components. */
  lemma ChildTestIsStrictPrefix(p: Path, q: Path)
    requires Canonical(p) && Canonical(q)
    ensures IsChildString(Render(p), Render(q)) <==> Below(p, q)
  {
    if q == [] {
      if p != [] { RenderNotRoot(p); }
    } else {
      RenderNotRoot(q);
      if IsChildString(Render(p), Render(q)) { ChildStringIsBelow(p, q); }
      if Below(p, q) {
        assert p == q + p[|q|..];
        SlashedConcat(q, p[|q|..]);
      }
    }
  }

  lemma ChildStringIsBelow(p: Path, q: Path)
    requires Canonical(p) && Canonical(q) && q != [] && Slashed(q) + "/" <= Render(p)
    ensures Below(p, q)
  {
    var r := Render(p)[|Slashed(q)| + 1..];
    assert Render(p) == Slashed(q) + ['/'] + r;
    RenderNotRoot(q);
    assert p != [];
    hide Slashed, Split, ValidName;
    SplitConcat(Slashed(q), r, '/');
    SplitSlashed(q);
    SplitSlashed(p);
    StripFirst("", p, q, Split(r, '/'));
  }

  lemma StripFirst<T>(x: T, p: seq<T>, q: seq<T>, r: seq<T>)
    requires [x] + p == [x] + q + r
    ensures p == q + r
  {
    assert ([x] + p)[1..] == p && ([x] + q + r)[1..] == q + r;
  }

  lemma RenderNotRoot(p: Path)
    requires Canonical(p) && p != []
    ensures Render(p) != "/" && |Slashed(p)| >= 2
  {
    assert ValidName(p[0]);
  }

  function LastSlash(s: string): int
    ensures -1 <= LastSlash(s) < |s|
    ensures LastSlash(s) >= 0 ==> s[LastSlash(s)] == '/' && '/' !in s[LastSlash(s) + 1..]
  {
    if s == "" then -1 else if s[|s| - 1] == '/' then |s| - 1 else LastSlash(s[..|s| - 1])
  }

  lemma {:induction false} LastSlashAt(a: string, b: string)
    requires '/' !in b
    ensures LastSlash(a + "/" + b) == |a|
  {
    var s := a + "/" + b;
    if b == "" {
      assert s[|s| - 1] == '/';
    } else {
      assert s[|s| - 1] == b[|b| - 1];
      assert s[..|s| - 1] == a + "/" + b[..|b| - 1];
      LastSlashAt(a, b[..|b| - 1]);
    }
  }

  /** path.Dir on a rooted string. */
  function Dir(s: string): Path {
    Clean(s[..LastSlash(s) + 1])
  }

  /** path.Dir is the parent; hasParentDirectory looks it up. */
  lemma DirIsParent(p: Path)
    requires Canonical(p) && p != []
    ensures Dir(Render(p)) == Parent(p)
  {
    var q, name := Parent(p), Last(p);
    assert ValidName(name);
    hide ValidName, Slashed, LastSlash, Clean;
    SlashedSnoc(q, name);
    assert p == q + [name];
    LastSlashAt(Slashed(q), name);
    CleanTrailing(q, "");
    assert Render(p)[..|Slashed(q)| + 1] == Slashed(q) + ['/'] + "";
    assert Walk(q, [""]) == q;
  }

  lemma CleanTrailing(q: Path, name: string)
    requires Canonical(q) && '/' !in name
    ensures Clean(Slashed(q) + ['/'] + name) == Walk(q, [name])
  {
    SplitConcat(Slashed(q), name, '/');
    SplitWhole(name, '/');
    SplitSlashed(q);
    WalkConcat([], [""] + q, [name]);
    WalkNames([], q);
    assert Walk([], [""] + q) == q by { assert ([""] + q)[1..] == q; }
  }

  /** path.Join of a rendered directory and a plain name appends one component. */
  lemma JoinAppends(parent: Path, name: string)
    requires Canonical(parent) && ValidName(name)
    ensures Clean(Render(parent) + "/" + name) == parent + [name]
  {
    WalkNames(parent, [name]);
    if parent == [] {
      SplitConcat("/", name, '/');
      SplitWhole(name, '/');
      SplitCons('/', "", '/');
      assert Split("/" + "/" + name, '/') == ["", "", name];
      WalkConcat([], ["", ""], [name]);
      assert ["", ""] + [name] == ["", "", name];
    } else {
      CleanTrailing(parent, name);
    }
  }

  /** The rename splice `Clean(destination + TrimPrefix(path, source))` swaps the prefix. */
  lemma SpliceSwapsPrefix(source: Path, destination: Path, suffix: Path)
    requires Canonical(source) && Canonical(destination) && Canonical(suffix)
    requires source != [] && destination != []
    ensures Render(source) <= Render(source + suffix)
    ensures Clean(Render(destination) + Render(source + suffix)[|Render(source)|..]) == destination + suffix
  {
    SlashedConcat(source, suffix);
    SlashedConcat(destination, suffix);
    CleanRender(destination + suffix);
  }

  // ---------------------------------------------------------------- filepath.Rel

  function CommonPrefix(a: Path, b: Path): (n: nat)
    ensures n <= |a| && n <= |b| && a[..n] == b[..n]
  {
    if a != [] && b != [] && a[0] == b[0] then 1 + CommonPrefix(a[1..], b[1..]) else 0
  }

  function Ups(n: nat): seq<string> {
    if n == 0 then [] else [".."] + Ups(n - 1)
  }

  /** filepath.Rel(from, to) on rooted paths, as the components of the relative path. */
  function Rel(from: Path, to: Path): seq<string> {
    var n := CommonPrefix(from, to);
    if from == to then ["."] else Ups(|from| - n) + to[n..]
  }

  lemma {:induction false} WalkUps(at: Path, n: nat)
    requires n <= |at|
    ensures Walk(at, Ups(n)) == at[..|at| - n]
  {
    if n > 0 {
      WalkUps(Parent(at), n - 1);
    }
  }

  /** A relative target resolves, from the directory it was made for, to its target. */
  lemma RelResolves(from: Path, to: Path)
    requires Canonical(from) && Canonical(to)
    ensures Walk(from, Rel(from, to)) == to
  {
    var n := CommonPrefix(from, to);
    hide ValidName, CommonPrefix;
    if from != to {
      WalkConcat(from, Ups(|from| - n), to[n..]);
      WalkUps(from, |from| - n);
      WalkNames(from[..n], to[n..]);
      assert to == to[..n] + to[n..];
    }
  }

  function JoinWith(parts: seq<string>, sep: char): string
    requires parts != []
  {
    if |parts| == 1 then parts[0] else parts[0] + [sep] + JoinWith(parts[1..], sep)
  }

  lemma {:induction false} SplitJoin(parts: seq<string>, sep: char)
    requires parts != [] && forall i :: 0 <= i < |parts| ==> sep !in parts[i]
    ensures Split(JoinWith(parts, sep), sep) == parts
  {
    SplitWhole(parts[0], sep);
    if |parts| > 1 {
      SplitJoin(parts[1..], sep);
      SplitConcat(parts[0], JoinWith(parts[1..], sep), sep);
    }
  }

  /** The string filepath.Rel returns. */
  function RelString(from: Path, to: Path): string {
    RelNonEmpty(from, to);
    JoinWith(Rel(from, to), '/')
  }

  lemma RelNonEmpty(from: Path, to: Path)
    ensures Rel(from, to) != []
  {
    var n := CommonPrefix(from, to);
    if from != to && n == |from| {
      assert from == from[..n] == to[..n];
      assert to[..|to|] == to;
    }
  }

  lemma {:induction false} UpsParts(n: nat, i: nat)
    requires i < |Ups(n)|
    ensures Ups(n)[i] == ".."
  {
    if i > 0 { UpsParts(n - 1, i - 1); }
  }

  /** A relative link target is a usable operation target and leads back to where it points. */
  lemma RelStringResolves(from: Path, to: Path)
    requires Canonical(from) && Canonical(to)
    ensures RelString(from, to) != "" && NUL !in RelString(from, to)
    ensures Walk(from, Split(RelString(from, to), '/')) == to
  {
    RelNonEmpty(from, to);
    RelResolves(from, to);
    var parts := Rel(from, to);
    var n := CommonPrefix(from, to);
    forall i | 0 <= i < |parts|
      ensures parts[i] != "" && '/' !in parts[i] && NUL !in parts[i]
    {
      if from != to {
        if i < |Ups(|from| - n)| {
          UpsParts(|from| - n, i);
        } else {
          assert ValidName(to[n + (i - |Ups(|from| - n)|)]);
        }
      }
    }
    SplitJoin(parts, '/');
    JoinFacts(parts, '/');
  }

  /** Where a symbolic link in `dir` leads. */
  function LinkDestination(dir: Path, target: string): Path {
    if target != "" && target[0] == '/' then Clean(target) else Walk(dir, Split(target, '/'))
  }

  lemma RenderLeads(dir: Path, p: Path)
    requires Canonical(p)
    ensures LinkDestination(dir, Render(p)) == p
  {
    CleanRender(p);
    hide Clean;
  }

  lemma RelLeads(dir: Path, p: Path)
    requires Canonical(dir) && Canonical(p)
    ensures LinkDestination(dir, RelString(dir, p)) == p
  {
    RelStringResolves(dir, p);
    RelIsRelative(dir, p);
    hide RelString, Walk, Split;
  }

  lemma RelIsRelative(dir: Path, p: Path)
    requires Canonical(p)
    ensures RelString(dir, p) != "" && RelString(dir, p)[0] != '/'
  {
    RelNonEmpty(dir, p);
    var parts, n := Rel(dir, p), CommonPrefix(dir, p);
    if dir != p {
      if |dir| > n { UpsParts(|dir| - n, 0); } else { assert parts[0] == p[n]; }
    }
    assert parts[0] != "" && parts[0][0] != '/';
  }

  lemma NameLeads(dir: Path, name: string)
    requires ValidName(name)
    ensures LinkDestination(dir, name) == dir + [name]
  {
    SplitWhole(name, '/');
    WalkNames(dir, [name]);
  }

  lemma {:induction false} JoinFacts(parts: seq<string>, sep: char)
    requires parts != [] && sep != NUL
    requires forall i :: 0 <= i < |parts| ==> parts[i] != "" && NUL !in parts[i]
    ensures JoinWith(parts, sep) != "" && NUL !in JoinWith(parts, sep)
  {
    if |parts| > 1 { JoinFacts(parts[1..], sep); }
  }

  // ---------------------------------------------------------------- order

  /** Paths sort by their string form, as sort.Strings sees them. */
  predicate PathLeq(p: Path, q: Path) {
    Leq(Render(p), Render(q))
  }

  lemma PathOrder()
    ensures TotalPreorder(PathLeq)
  {
    forall p, q ensures PathLeq(p, q) || PathLeq(q, p) { LeqTotal(Render(p), Render(q)); }
    forall p, q, r | PathLeq(p, q) && PathLeq(q, r) ensures PathLeq(p, r) {
      LeqTransitive(Render(p), Render(q), Render(r));
    }
  }

  lemma PathsSeparate(s: seq<Path>)
    requires forall i :: 0 <= i < |s| ==> Canonical(s[i])
    ensures Separates(PathLeq, s)
  {
    forall p, q | p in s && q in s && PathLeq(p, q) && PathLeq(q, p) ensures p == q {
      LeqTotal(Render(p), Render(q));
      RenderInjective(p, q);
    }
  }

  /** The root sorts before everything. */
  lemma RootFirst(p: Path)
    ensures PathLeq([], p)
  {
    if p != [] {
      assert "/" <= Slashed(p);
    }
    PrefixLeq("/", Render(p));
  }
}
