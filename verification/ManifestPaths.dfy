/**
  manifest.go and mutate.go: translating planned paths to manifest paths and back. The base is a
  rooted path; the functions work on strings, as the source does, and the lemmas say what they
  do on components.
 */
module ManifestPaths {
  import opened Wrappers
  import opened Strings
  import opened Paths
  import opened Operations
  import opened ManifestEntries

  /** The relative path climbs out. */
  predicate Escapes(rel: string) {
    rel == ".." || "../" <= rel
  }

  /** planPathToManifestPath */
  function PlanPathToManifestPath(base: string, path: string): Option<string> {
    var rel := RelString(Clean(base), Clean(path));
    if rel == "." then Some(ROOT)
    else if Escapes(rel) then None
    else NormalPath("/" + rel, false)
  }

  function TrimSlash(path: string): string {
    if "/" <= path then path[1..] else path
  }

  /** operationPathToFS, with ensurePathWithinBase */
  function OperationPathToFS(base: string, opPath: string): Option<string> {
    var cleanBase := Clean(base);
    if opPath == ROOT then Some(Render(cleanBase))
    else
      var relative := TrimSlash(opPath);
      if relative == "" then None
      else
        var full := Clean(Render(cleanBase) + "/" + relative);
        if Escapes(RelString(cleanBase, full)) then None else Some(Render(full))
  }

  /** tryTranslateAbsolutePathToManifestPath: an error, a literal target, or a manifest path. */
  function TryTranslate(base: string, path: string): Option<Option<string>> {
    if Trim(path) == "" then None
    else if path[0] != '/' then Some(None)
    else
      var rel := RelString(Clean(base), Clean(path));
      if Escapes(rel) then Some(None)
      else if rel == "." then Some(Some(ROOT))
      else
        var normalized := NormalPath("/" + rel, false);
        if normalized.None? then None else Some(normalized)
  }

  // ---------------------------------------------------------------- relative paths

  lemma {:induction false} CommonPrefixWhole(base: Path, p: Path)
    ensures CommonPrefix(base, p) == |base| <==> base <= p
  {
    if base != [] && p != [] && base[0] == p[0] {
      CommonPrefixWhole(base[1..], p[1..]);
      assert base <= p <==> base[1..] <= p[1..] by { TailPrefix(base, p); }
    }
  }

  lemma TailPrefix(a: Path, b: Path)
    requires a != [] && b != [] && a[0] == b[0]
    ensures a <= b <==> a[1..] <= b[1..]
  {
    assert a == [a[0]] + a[1..] && b == [b[0]] + b[1..];
  }

  lemma {:induction false} SlashJoin(names: seq<string>)
    requires names != []
    ensures "/" + JoinWith(names, '/') == Slashed(names)
  {
    if |names| > 1 {
      SlashJoin(names[1..]);
      assert Slashed(names) == "/" + names[0] + Slashed(names[1..]);
      assert "/" + (names[0] + ['/'] + JoinWith(names[1..], '/')) == "/" + names[0] + ("/" + JoinWith(names[1..], '/'));
    } else {
      assert names[1..] == [];
    }
  }

  /** A relative path made of plain names neither climbs nor stays. */
  lemma NamesStayInside(names: seq<string>)
    requires names != [] && Plain(names)
    ensures var rel := JoinWith(names, '/'); !Escapes(rel) && rel != "."
  {
    var rel := JoinWith(names, '/');
    SplitJoin(names, '/');
    if rel == ".." || rel == "." {
      SplitWhole(rel, '/');
    } else if "../" <= rel {
      assert rel == ".." + ['/'] + rel[3..];
      SplitConcat("..", rel[3..], '/');
      SplitWhole("..", '/');
    }
  }

  /** Inside the base, the relative path is the rest of the path; outside, it climbs. */
  lemma RelCases(base: Path, p: Path)
    requires Plain(base) && Plain(p)
    ensures base == p <==> RelString(base, p) == "."
    ensures Escapes(RelString(base, p)) <==> !(base <= p)
    ensures base < p ==> "/" + RelString(base, p) == Render(p[|base|..])
  {
    CommonPrefixWhole(base, p);
    if base == p {
    } else if base <= p {
      var names := p[|base|..];
      assert Ups(0) + names == names;
      NamesStayInside(names);
      SlashJoin(names);
    } else {
      var n := CommonPrefix(base, p);
      assert Ups(|base| - n)[0] == "..";
      assert Escapes(JoinWith(Rel(base, p), '/'));
    }
  }

  // ---------------------------------------------------------------- the translations

  /** A planned path becomes the path below the base, exactly when it is inside. */
  lemma ToManifest(base: Path, p: Path)
    requires Canonical(base) && Canonical(p)
    ensures PlanPathToManifestPath(Render(base), Render(p)) == if base <= p then Some(Render(p[|base|..])) else None
  {
    CleanRender(base);
    CleanRender(p);
    RelCases(base, p);
    hide RelString, Clean, Render;
    if base < p {
      NormalPathOf(p[|base|..]);
    } else if base == p {
      assert Render([]) == ROOT by { RootRenders(); }
      assert p[|base|..] == [];
    }
  }

  lemma RootRenders()
    ensures Render([]) == ROOT
  {
  }

  lemma NormalPathOf(q: Path)
    requires Canonical(q) && q != []
    ensures NormalPath(Render(q), false) == Some(Render(q))
  {
    NormalizePathFixpoint(q, false);
  }

  lemma JoinBelow(base: Path, q: Path)
    requires Canonical(base) && Canonical(q) && q != []
    ensures Clean(Render(base) + "/" + JoinWith(q, '/')) == base + q
  {
    var s, rest := Render(base), JoinWith(q, '/');
    assert s + "/" + rest == s + ['/'] + rest;
    SplitConcat(s, rest, '/');
    SplitJoin(q, '/');
    WalkConcat([], Split(s, '/'), q);
    CleanRender(base);
    WalkNames(base, q);
  }

  /** A manifest path becomes the same path below the base. */
  lemma ToFilesystem(base: Path, q: Path)
    requires Canonical(base) && Canonical(q)
    ensures OperationPathToFS(Render(base), Render(q)) == Some(Render(base + q))
  {
    CleanRender(base);
    if q == [] {
      assert base + q == base;
    } else {
      SlashJoin(q);
      JoinBelow(base, q);
      NotRootNotEmpty(q);
      RelCases(base, base + q);
      hide Clean, RelString, Render, JoinWith;
      assert TrimSlash(Render(q)) == JoinWith(q, '/') by { TrimmedJoin(q); }
    }
  }

  lemma NotRootNotEmpty(q: Path)
    requires Canonical(q) && q != []
    ensures Render(q) != ROOT && JoinWith(q, '/') != ""
  {
    assert ValidName(q[0]);
    RenderNotRoot(q);
  }

  lemma TrimmedJoin(q: Path)
    requires q != []
    ensures TrimSlash(Render(q)) == JoinWith(q, '/')
  {
    SlashJoin(q);
    assert ("/" + JoinWith(q, '/'))[1..] == JoinWith(q, '/');
  }

  /** The two translations undo each other. */
  lemma TranslationsInverse(base: Path, p: Path, q: Path)
    requires Canonical(base) && Canonical(p) && Canonical(q)
    ensures forall m: string :: PlanPathToManifestPath(Render(base), Render(p)) == Some(m) ==>
                                OperationPathToFS(Render(base), m) == Some(Render(p))
    ensures forall f: string :: OperationPathToFS(Render(base), Render(q)) == Some(f) ==>
                                PlanPathToManifestPath(Render(base), f) == Some(Render(q))
  {
    hide PlanPathToManifestPath, OperationPathToFS, Render;
    ToManifest(base, p);
    if base <= p {
      ToFilesystem(base, p[|base|..]);
      assert base + p[|base|..] == p;
    }
    ToFilesystem(base, q);
    ToManifest(base, base + q);
    assert (base + q)[|base|..] == q;
  }

  /** Whatever string an operation carries, what it is translated to lies inside the base. */
  lemma NeverLeavesBase(base: Path, opPath: string)
    requires Canonical(base) && OperationPathToFS(Render(base), opPath).Some?
    ensures exists p :: Plain(p) && base <= p && (NUL !in opPath ==> Canonical(p)) && OperationPathToFS(Render(base), opPath) == Some(Render(p))
  {
    CleanRender(base);
    RenderHasNoNul(base);
    if opPath == ROOT {
      assert OperationPathToFS(Render(base), opPath) == Some(Render(base));
    } else {
      var raw := Render(base) + "/" + TrimSlash(opPath);
      CleanCanonical(raw);
      RelCases(base, Clean(raw));
    }
  }

  /** A plain path with a NUL somewhere shows it in its text. */
  lemma {:induction false} NulShows(q: Path)
    requires Plain(q) && !Canonical(q)
    ensures NUL in Slashed(q)
  {
    if NUL !in q[0] {
      assert forall i :: 0 <= i < |q| && !ValidName(q[i]) ==> i > 0 && q[1..][i - 1] == q[i];
      NulShows(q[1..]);
    }
  }

  /** An absolute target inside the base is translated, if it cleans to a path without NUL; any other is kept as it is. */
  lemma TranslateCases(base: Path, target: string)
    requires Canonical(base) && Trim(target) != ""
    ensures Plain(Clean(target))
    ensures target[0] != '/' || !(base <= Clean(target)) ==> TryTranslate(Render(base), target) == Some(None)
    ensures target[0] == '/' && base <= Clean(target) ==>
      TryTranslate(Render(base), target) == if Canonical(Clean(target)) then Some(Some(Render(Clean(target)[|base|..]))) else None
  {
    CleanRender(base);
    CleanCanonical(target);
    var p := Clean(target);
    if target[0] == '/' {
      RelCases(base, p);
      hide RelString, Clean;
      if base < p {
        var q := p[|base|..];
        assert p == base + q;
        if Canonical(p) { NormalPathOf(q); } else { NulShows(q); }
      } else if base == p {
        RootRenders();
        assert p[|base|..] == [];
      }
    }
  }
}
