/**
  manifest.go: how the structure check of a manifest and the shape of a plan answer each other.
  Plans that convert pass the check when their absolute links lead to planned paths; manifests
  that pass it give a well-formed plan when hard links come after their sources.
 */
module ManifestShapes {
  import opened Wrappers
  import opened Strings
  import opened Paths
  import opened PlanSpec
  import opened ManifestEntries
  import opened ManifestPaths
  import opened ManifestPlan
  import opened ManifestReplay
  import opened Manifest

  // ---------------------------------------------------------------- one plan, one manifest

  function TypeOf(e: Entry): EntryType {
    match e
    case DirEntry(_, _, _) => DirType
    case FileEntry(_, _, _, _, _) => FileType
    case SymlinkEntry(_, _, _) => SymlinkType
    case HardlinkEntry(_, _) => HardlinkType
    case SpecialEntry(_, _, _, _, _, _) => SpecialFileType
  }

  /** The text of a path below the base. */
  function TextBelow(base: Path, p: Path): string
    requires base <= p
  {
    Render(p[|base|..])
  }

  /** The manifest entry has the planned entry's type, path and hard link source. */
  ghost predicate Shows(base: Path, e: Entry, n: ManifestEntry) {
    && Canonical(e.path) && base <= e.path && n.kind == TypeOf(e) && n.path == TextBelow(base, e.path)
    && (e.HardlinkEntry? ==> Canonical(e.source) && base <= e.source && n.sourcePath == TextBelow(base, e.source))
  }

  ghost predicate AllShow(base: Path, entries: seq<Entry>, n: seq<ManifestEntry>) {
    |n| == |entries| && forall i :: 0 <= i < |n| ==> Shows(base, entries[i], n[i])
  }

  lemma SameBelow(base: Path, p: Path, q: Path)
    requires Canonical(p) && Canonical(q) && base <= p && base <= q
    ensures TextBelow(base, p) == TextBelow(base, q) <==> p == q
  {
    OtherPath(base, p, q);
  }

  lemma PathsShow(base: Path, entries: seq<Entry>, n: seq<ManifestEntry>, p: Path)
    requires AllShow(base, entries, n) && Canonical(p) && base <= p
    ensures PathAt(n, TextBelow(base, p)) <==> p in PathsOf(entries)
  {
    hide TextBelow;
    forall j | 0 <= j < |n| ensures n[j].path == TextBelow(base, p) <==> entries[j].path == p {
      assert Shows(base, entries[j], n[j]);
      SameBelow(base, entries[j].path, p);
    }
    if p in PathsOf(entries) {
      var e :| e in entries && e.path == p;
      var j :| 0 <= j < |entries| && entries[j] == e;
      assert n[j].path == TextBelow(base, p);
    }
  }

  lemma TypesShow(base: Path, entries: seq<Entry>, n: seq<ManifestEntry>, p: Path)
    requires AllShow(base, entries, n) && Canonical(p) && base <= p
    ensures TypedAt(n, TextBelow(base, p), {DirType}) <==> p in DirPaths(entries)
    ensures TypedAt(n, TextBelow(base, p), {FileType, HardlinkType}) <==> p in RegularPaths(entries)
  {
    hide TextBelow;
    forall j | 0 <= j < |n|
      ensures (n[j].path == TextBelow(base, p) <==> entries[j].path == p)
      ensures (n[j].kind in {DirType} <==> entries[j].DirEntry?) && (n[j].kind in {FileType, HardlinkType} <==> Regular(entries[j]))
    {
      assert Shows(base, entries[j], n[j]);
      SameBelow(base, entries[j].path, p);
    }
    if p in DirPaths(entries) {
      var e :| e in entries && e.DirEntry? && e.path == p;
      var j :| 0 <= j < |entries| && entries[j] == e;
      assert n[j].path == TextBelow(base, p);
    }
    if p in RegularPaths(entries) {
      var e :| e in entries && Regular(e) && e.path == p;
      var j :| 0 <= j < |entries| && entries[j] == e;
      assert n[j].path == TextBelow(base, p);
    }
  }

  lemma ParentBelow(base: Path, p: Path)
    requires Canonical(p) && base < p
    ensures base <= Parent(p) && Canonical(Parent(p)) && ParentString(TextBelow(base, p)) == TextBelow(base, Parent(p)) && TextBelow(base, p) != ROOT
  {
    var q := p[|base|..];
    assert q != [] && Canonical(q) && Parent(p)[|base|..] == Parent(q);
    DirIsParent(q);
    NotRootNotEmpty(q);
    hide Render, Dir;
  }

  /** The source is listed before the link, in the plan. */
  ghost predicate SourceEarlier(entries: seq<Entry>, i: nat)
    requires i < |entries|
  {
    entries[i].HardlinkEntry? ==> entries[i].source in RegularPaths(entries[..i])
  }

  lemma PrefixShows(base: Path, entries: seq<Entry>, n: seq<ManifestEntry>, k: nat)
    requires AllShow(base, entries, n) && k <= |n|
    ensures AllShow(base, entries[..k], n[..k])
  {
    hide Shows;
  }

  /** The first entry: a root directory on both sides. */
  lemma FirstShows(base: Path, entries: seq<Entry>, n: seq<ManifestEntry>)
    requires AllShow(base, entries, n) && n != []
    ensures n[0].kind.DirType? && n[0].path == ROOT <==> entries[0].DirEntry? && entries[0].path == base
  {
    assert Shows(base, entries[0], n[0]);
    hide TextBelow;
    RootBelow(base, entries[0].path);
  }

  lemma RootBelow(base: Path, p: Path)
    requires Canonical(p) && base <= p
    ensures TextBelow(base, p) == ROOT <==> p == base
  {
    BareIsRoot(base, p);
  }

  /** An entry after the first: placed in the manifest exactly when it may follow in the plan, sources apart. */
  lemma PlacedShows(base: Path, entries: seq<Entry>, n: seq<ManifestEntry>, i: nat)
    requires AllShow(base, entries, n) && 0 < i < |n| && n[0].kind.DirType? && n[0].path == ROOT
    ensures Placed(n, i) && SourceEarlier(entries, i) <==> MayFollow(base, entries[..i], entries[i])
  {
    var e := entries[i];
    assert Shows(base, e, n[i]);
    FirstShows(base, entries, n);
    PrefixShows(base, entries, n, i);
    PrefixShows(base, entries, n, i + 1);
    PathsShow(base, entries[..i], n[..i], e.path);
    RootBelow(base, e.path);
    assert entries[..i][0] == entries[0] && entries[0] in entries[..i];
    hide AllShow, TextBelow, Shows, PathAt, TypedAt, ParentString;
    if e.path != base {
      ParentBelow(base, e.path);
      TypesShow(base, entries[..i + 1], n[..i + 1], Parent(e.path));
      ParentNotSelf(entries, i);
    }
  }

  lemma ParentNotSelf(entries: seq<Entry>, i: nat)
    requires i < |entries| && entries[i].path != []
    ensures Parent(entries[i].path) in DirPaths(entries[..i + 1]) <==> Parent(entries[i].path) in DirPaths(entries[..i])
  {
    assert entries[..i + 1] == entries[..i] + [entries[i]];
    SnocPaths(entries[..i], entries[i]);
  }

  /** Well-formedness, position by position. */
  lemma {:induction false} WellFormedByPosition(base: Path, entries: seq<Entry>)
    ensures WellFormedPlan(base, entries) <==> forall i :: 0 <= i < |entries| ==> MayFollow(base, entries[..i], entries[i])
    decreases entries
  {
    hide MayFollow;
    if entries != [] {
      var front := entries[..|entries| - 1];
      WellFormedByPosition(base, front);
      forall i | 0 <= i < |front| ensures front[..i] == entries[..i] && front[i] == entries[i] { }
    }
  }

  /** Which plans are well-formed, told by their manifest. */
  lemma ShapesAgree(base: Path, entries: seq<Entry>, n: seq<ManifestEntry>)
    requires AllShow(base, entries, n) && n != []
    ensures WellFormedPlan(base, entries) <==>
      (n[0].kind.DirType? && n[0].path == ROOT
       && (forall i :: 0 <= i < |n| ==> Placed(n, i)) && (forall i :: 0 <= i < |n| ==> SourceEarlier(entries, i)))
  {
    WellFormedByPosition(base, entries);
    FirstShows(base, entries, n);
    FirstPlaced(base, entries, n);
    hide WellFormedPlan, Placed, SourceEarlier, AllShow;
    if n[0].kind.DirType? && n[0].path == ROOT {
      forall i | 0 < i < |n| ensures Placed(n, i) && SourceEarlier(entries, i) <==> MayFollow(base, entries[..i], entries[i]) {
        PlacedShows(base, entries, n, i);
      }
      hide MayFollow;
      forall i | 0 <= i < |n| ensures Placed(n, i) && SourceEarlier(entries, i) <==> MayFollow(base, entries[..i], entries[i]) {
        if i > 0 { }
      }
    }
  }

  lemma FirstPlaced(base: Path, entries: seq<Entry>, n: seq<ManifestEntry>)
    requires AllShow(base, entries, n) && n != []
    ensures n[0].kind.DirType? && n[0].path == ROOT ==>
      Placed(n, 0) && SourceEarlier(entries, 0) && MayFollow(base, entries[..0], entries[0])
    ensures MayFollow(base, entries[..0], entries[0]) ==> entries[0].DirEntry? && entries[0].path == base
  {
    FirstShows(base, entries, n);
    assert Shows(base, entries[0], n[0]) && entries[..0] == [] && n[..0] == [];
  }

  // ---------------------------------------------------------------- from a plan

  /** An absolute link into the base. */
  predicate Inside(base: Path, target: string) {
    Trim(target) != "" && target[0] == '/' && base <= Clean(target)
  }

  /** Every absolute link into the base leads to a planned path. */
  ghost predicate LinksInside(base: Path, entries: seq<Entry>) {
    forall e :: e in entries && e.SymlinkEntry? && Inside(base, e.target) ==> Clean(e.target) in PathsOf(entries)
  }

  /** A converted link is a manifest path exactly when it leads into the base. */
  ghost predicate LinkShows(base: Path, e: Entry, n: ManifestEntry) {
    e.SymlinkEntry? ==>
      && (n.targetType.ManifestPath? <==> Inside(base, e.target))
      && (Inside(base, e.target) ==> Canonical(Clean(e.target)) && n.linkTarget == TextBelow(base, Clean(e.target)))
  }

  predicate CanonicalEntry(e: Entry) {
    Canonical(e.path) && (e.HardlinkEntry? ==> Canonical(e.source))
  }

  lemma EntriesCanonical(base: Path, entries: seq<Entry>)
    requires Canonical(base) && WellFormedPlan(base, entries)
    ensures forall e :: e in entries ==> CanonicalEntry(e)
  {
    forall e | e in entries ensures CanonicalEntry(e) {
      assert e.path in PathsOf(entries);
      PlannedIsCanonical(base, entries, e.path);
      if e.HardlinkEntry? {
        var i :| 0 <= i < |entries| && entries[i] == e;
        WellFormedMeans(base, entries, i);
        var j :| 0 <= j < i && Regular(entries[j]) && entries[j].path == e.source;
        assert entries[j] in entries && entries[j].path in PathsOf(entries);
        PlannedIsCanonical(base, entries, e.source);
      }
    }
  }

  lemma HardlinkFields(base: Path, e: Entry, m: ManifestEntry)
    requires Canonical(e.path) && e.HardlinkEntry? && Canonical(e.source) && base <= e.source && PathKept(base, e, m)
    requires m.kind == HardlinkType && m.sourcePath == Render(e.source[|base|..])
    ensures Shows(base, e, m)
  {
    hide Render, NormalPath, Canonical;
  }

  lemma HardlinkShows(base: Path, e: Entry)
    requires Canonical(base) && CanonicalEntry(e) && e.HardlinkEntry? && FromPlanned(base, e).Some?
    requires NormalEntry(FromPlanned(base, e).value).Some?
    ensures Shows(base, e, NormalEntry(FromPlanned(base, e).value).value)
  {
    var m := FromPlanned(base, e).value;
    HardlinkNormal(base, e);
    PathStable(base, e);
    HardlinkShape(base, e);
    SourceStable(base, e.source);
    hide *;
    assert m.kind == HardlinkType;
    HardlinkFields(base, e, m);
  }

  lemma SymlinkShows(base: Path, e: Entry)
    requires Canonical(base) && CanonicalEntry(e) && e.SymlinkEntry? && FromPlanned(base, e).Some?
    requires NormalEntry(FromPlanned(base, e).value).Some?
    ensures var n := NormalEntry(FromPlanned(base, e).value).value; Shows(base, e, n) && LinkShows(base, e, n)
  {
    var m := FromPlanned(base, e).value;
    SymlinkNormal(base, e);
    PathStable(base, e);
    SymlinkConverted(base, e);
    TranslatedTarget(base, e.target);
    hide *;
    assert Shows(base, e, m.(metadata := None)) && LinkShows(base, e, m.(metadata := None));
  }

  /** What a target is translated to. */
  lemma TranslatedTarget(base: Path, target: string)
    requires Canonical(base) && TryTranslate(Render(base), target).Some?
    ensures TryTranslate(Render(base), target) == Some(if Inside(base, target) then Some(Render(Clean(target)[|base|..])) else None)
    ensures Inside(base, target) ==> Canonical(Clean(target))
  {
    assert Trim(target) != "";
    TranslateCases(base, target);
    hide Trim, Clean, Render, TryTranslate, Canonical;
  }

  lemma ConvertedShows(base: Path, e: Entry)
    requires Canonical(base) && CanonicalEntry(e) && FromPlanned(base, e).Some? && NormalEntry(FromPlanned(base, e).value).Some?
    ensures var n := NormalEntry(FromPlanned(base, e).value).value; Shows(base, e, n) && LinkShows(base, e, n)
  {
    PathStable(base, e);
    match e
    case DirEntry(_, _, _) =>
      DirNormal(base, e);
      DirShape(base, e);
      hide FromPlanned, NormalEntry, Render;
    case FileEntry(_, _, _, _, _) =>
      FileNormal(base, e);
      FileShape(base, e);
      hide FromPlanned, NormalEntry, Render;
    case SymlinkEntry(_, _, _) => SymlinkShows(base, e);
    case HardlinkEntry(_, _) => HardlinkShows(base, e);
    case SpecialEntry(_, _, _, _, _, _) =>
      SpecialNormal(base, e);
      SpecialShape(base, e);
      hide FromPlanned, NormalEntry, Render;
  }

  lemma PlanShows(base: Path, entries: seq<Entry>, n: seq<ManifestEntry>)
    requires Canonical(base) && (forall e :: e in entries ==> CanonicalEntry(e)) && FromPlan(base, entries).Some?
    requires NormalEntries(FromPlan(base, entries).value) == Some(n)
    ensures AllShow(base, entries, n) && forall i :: 0 <= i < |n| ==> LinkShows(base, entries[i], n[i])
  {
    hide FromPlanned, NormalEntry, Shows, LinkShows, CanonicalEntry;
    var m := FromPlan(base, entries).value;
    PlanLengths(base, entries);
    forall i | 0 <= i < |entries| ensures i < |n| && Shows(base, entries[i], n[i]) && LinkShows(base, entries[i], n[i]) {
      FromPlanAt(base, entries, i);
      NormalEntriesAt(m, i);
      ConvertedShows(base, entries[i]);
    }
  }

  lemma PlanLengths(base: Path, entries: seq<Entry>)
    requires FromPlan(base, entries).Some? && NormalEntries(FromPlan(base, entries).value).Some?
    ensures |NormalEntries(FromPlan(base, entries).value).value| == |entries|
  {
    hide FromPlanned, NormalEntry;
    if entries != [] {
      FromPlanAt(base, entries, 0);
      NormalEntriesAt(FromPlan(base, entries).value, 0);
    }
  }

  lemma SymlinksResolve(base: Path, entries: seq<Entry>, n: seq<ManifestEntry>, i: nat)
    requires AllShow(base, entries, n) && i < |n| && LinkShows(base, entries[i], n[i])
    ensures n[i].kind.SymlinkType? && n[i].targetType.ManifestPath? ==>
      (PathAt(n, n[i].linkTarget) <==> Clean(entries[i].target) in PathsOf(entries))
  {
    assert Shows(base, entries[i], n[i]);
    hide TextBelow, Clean, PathAt, AllShow;
    if n[i].kind.SymlinkType? && n[i].targetType.ManifestPath? {
      PathsShow(base, entries, n, Clean(entries[i].target));
    }
  }

  /**
    When a plan's manifest passes the structure check: for a well-formed plan that converts and
    normalises, exactly when every absolute link into the base leads to a planned path.
   */
  lemma StructureOfPlan(base: Path, entries: seq<Entry>, n: seq<ManifestEntry>)
    requires Canonical(base) && WellFormedPlan(base, entries) && entries != []
    requires FromPlan(base, entries).Some? && NormalEntries(FromPlan(base, entries).value) == Some(n)
    ensures Structured(n) <==> LinksInside(base, entries)
  {
    EntriesCanonical(base, entries);
    PlanShows(base, entries, n);
    ShapesAgree(base, entries, n);
    hide FromPlan, NormalEntries, Placed, WellFormedPlan, AllShow, LinkShows, Clean, Trim;
    forall i | 0 <= i < |n| ensures LinksResolve(n, n[i]) <==> LinkLeads(base, entries, entries[i]) {
      LinkResolution(base, entries, n, i);
    }
    hide LinksResolve, Inside;
    assert LinksInside(base, entries) <==> forall i :: 0 <= i < |n| ==> LinkLeads(base, entries, entries[i]) by {
      AllLeads(base, entries);
      assert |n| == |entries| by { ShowLengths(base, entries, n); }
    }
  }

  lemma ShowLengths(base: Path, entries: seq<Entry>, n: seq<ManifestEntry>)
    requires AllShow(base, entries, n)
    ensures |n| == |entries|
  {
  }

  ghost predicate LinkLeads(base: Path, entries: seq<Entry>, e: Entry) {
    e.SymlinkEntry? && Inside(base, e.target) ==> Clean(e.target) in PathsOf(entries)
  }

  lemma AllLeads(base: Path, entries: seq<Entry>)
    ensures LinksInside(base, entries) <==> forall i :: 0 <= i < |entries| ==> LinkLeads(base, entries, entries[i])
  {
    hide Inside, Clean;
    if forall i :: 0 <= i < |entries| ==> LinkLeads(base, entries, entries[i]) {
      forall e | e in entries ensures LinkLeads(base, entries, e) {
        var i :| 0 <= i < |entries| && entries[i] == e;
      }
    }
  }

  lemma SourceResolves(base: Path, entries: seq<Entry>, n: seq<ManifestEntry>, i: nat)
    requires AllShow(base, entries, n) && i < |n| && entries[i].HardlinkEntry? && SourceEarlier(entries, i)
    ensures TypedAt(n, n[i].sourcePath, {FileType, HardlinkType})
  {
    assert Shows(base, entries[i], n[i]);
    hide AllShow, TextBelow, TypedAt;
    TypesShow(base, entries, n, entries[i].source);
    assert entries == entries[..i] + entries[i..];
  }

  lemma LinkResolution(base: Path, entries: seq<Entry>, n: seq<ManifestEntry>, i: nat)
    requires AllShow(base, entries, n) && i < |n| && LinkShows(base, entries[i], n[i]) && SourceEarlier(entries, i)
    ensures LinksResolve(n, n[i]) <==> LinkLeads(base, entries, entries[i])
  {
    assert n[i].kind == TypeOf(entries[i]) by { assert Shows(base, entries[i], n[i]); }
    SymlinksResolve(base, entries, n, i);
    if entries[i].HardlinkEntry? { SourceResolves(base, entries, n, i); }
    hide AllShow, TextBelow, Clean, TypedAt, PathAt, Inside, SourceEarlier;
  }
}
