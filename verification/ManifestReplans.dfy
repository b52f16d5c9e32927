/**
  manifest.go's `runPlanFromScenarioManifest`: which plan a manifest gives. When a whole plan
  comes back from its manifest, and when the plan of a manifest is well-formed.
 */
module ManifestReplans {
  import opened Wrappers
  import opened Strings
  import opened Paths
  import opened Operations
  import opened PlanSpec
  import opened NormalLists
  import opened ManifestEntries
  import opened ManifestPaths
  import opened ManifestPlan
  import opened ManifestReplay
  import opened ManifestShapes
  import opened Manifest
  import PlanApply

  /** runPlanFromScenarioManifest */
  ghost function ToPlan(base: Path, n: seq<ManifestEntry>): Option<seq<Entry>> {
    if n == [] then Some([])
    else
      var front, last := ToPlan(base, n[..|n| - 1]), ToPlanned(base, n[|n| - 1]);
      if front.None? || last.None? then None else Some(front.value + [last.value])
  }

  // ---------------------------------------------------------------- plan, manifest, plan

  /** Convert, normalise, check the structure, convert back. */
  ghost function ReplayPlan(base: Path, entries: seq<Entry>): Option<seq<Entry>> {
    var m := FromPlan(base, entries);
    if m.None? then None
    else
      var n := NormalEntries(m.value);
      if n.None? || !Structured(n.value) then None else ToPlan(base, n.value)
  }

  function AllReplayed(entries: seq<Entry>): seq<Entry> {
    seq(|entries|, i requires 0 <= i < |entries| => Replayed(entries[i]))
  }

  /** Without the structure check. */
  ghost function Chained(base: Path, entries: seq<Entry>): Option<seq<Entry>> {
    var m := FromPlan(base, entries);
    if m.None? then None
    else
      var n := NormalEntries(m.value);
      if n.None? then None else ToPlan(base, n.value)
  }

  lemma ChainedSnoc(base: Path, front: seq<Entry>, last: Entry)
    ensures Chained(base, front + [last]) ==
      (var f, l := Chained(base, front), Replay(base, last);
       if f.None? || l.None? then None else Some(f.value + [l.value]))
  {
    hide FromPlanned, NormalEntry, ToPlanned;
    var all := front + [last];
    assert all[..|all| - 1] == front;
    var fm, lm := FromPlan(base, front), FromPlanned(base, last);
    if fm.Some? && lm.Some? {
      var m := fm.value + [lm.value];
      assert m[..|m| - 1] == fm.value;
      var fn, ln := NormalEntries(fm.value), NormalEntry(lm.value);
      if fn.Some? && ln.Some? {
        var n := fn.value + [ln.value];
        assert n[..|n| - 1] == fn.value;
      }
    }
  }

  ghost predicate EachBack(base: Path, entries: seq<Entry>) {
    forall e :: e in entries ==> Replay(base, e) == Some(Replayed(e))
  }

  lemma EachBackSnoc(base: Path, front: seq<Entry>, last: Entry)
    ensures EachBack(base, front + [last]) <==> EachBack(base, front) && Replay(base, last) == Some(Replayed(last))
  {
    hide Replay, Replayed;
    assert forall e :: e in front + [last] <==> e in front || e == last;
  }

  lemma ReplayedSnoc(front: seq<Entry>, last: Entry)
    ensures AllReplayed(front + [last]) == AllReplayed(front) + [Replayed(last)]
  {
    hide Replayed;
  }

  lemma {:induction false} ChainedBack(base: Path, entries: seq<Entry>)
    ensures Chained(base, entries) == Some(AllReplayed(entries)) <==> EachBack(base, entries)
    decreases entries
  {
    if entries == [] {
      assert AllReplayed(entries) == [];
    } else {
      hide *;
      var front, last := entries[..|entries| - 1], entries[|entries| - 1];
      assert entries == front + [last];
      ChainedBack(base, front);
      ChainedSnoc(base, front, last);
      EachBackSnoc(base, front, last);
      ReplayedSnoc(front, last);
      SnocEqual(Chained(base, front), Replay(base, last), AllReplayed(front), Replayed(last));
    }
  }

  lemma SnocEqual(f: Option<seq<Entry>>, l: Option<Entry>, a: seq<Entry>, x: Entry)
    ensures (if f.None? || l.None? then None else Some(f.value + [l.value])) == Some(a + [x]) <==> f == Some(a) && l == Some(x)
  {
    if f.Some? && l.Some? && f.value + [l.value] == a + [x] { LastParts(f.value, l.value, a, x); }
  }

  lemma LastParts(a: seq<Entry>, x: Entry, b: seq<Entry>, y: Entry)
    requires a + [x] == b + [y]
    ensures a == b && x == y
  {
    assert (a + [x])[..|a|] == a && (b + [y])[..|b|] == b;
    assert (a + [x])[|a|] == x && (b + [y])[|b|] == y;
  }

  /**
    A whole plan through its manifest. A well-formed plan whose entries convert comes back, up to
    the predictions, exactly when every entry is replayable and every absolute link into the base
    leads to a planned path.
   */
  lemma PlanRoundTrip(base: Path, entries: seq<Entry>)
    requires Canonical(base) && WellFormedPlan(base, entries) && entries != [] && FromPlan(base, entries).Some?
    ensures ReplayPlan(base, entries) == Some(AllReplayed(entries))
       <==> (forall e :: e in entries ==> EntryReplayable(base, e)) && LinksInside(base, entries)
  {
    ChainedBack(base, entries);
    EntriesCanonical(base, entries);
    forall e | e in entries ensures Replay(base, e) == Some(Replayed(e)) <==> EntryReplayable(base, e) {
      ConvertedEntry(base, entries, e);
      EntryRoundTrip(base, e);
    }
    var m := FromPlan(base, entries).value;
    if NormalEntries(m).Some? { StructureOfPlan(base, entries, NormalEntries(m).value); }
    hide FromPlan, NormalEntries, ToPlan, Structured, LinksInside, EntryReplayable, Replay, Replayed, WellFormedPlan, AllReplayed, CanonicalEntry;
  }

  lemma ConvertedEntry(base: Path, entries: seq<Entry>, e: Entry)
    requires FromPlan(base, entries).Some? && e in entries
    ensures FromPlanned(base, e).Some?
  {
    hide FromPlanned;
    var i :| 0 <= i < |entries| && entries[i] == e;
    FromPlanAt(base, entries, i);
  }

  // ---------------------------------------------------------------- from a manifest

  lemma NormalPathIsRendered(path: string, allowRoot: bool) returns (q: Path)
    requires NormalPath(path, allowRoot) == Some(path)
    ensures Canonical(q) && path == Render(q)
  {
    NormalizePathOutput(path, allowRoot);
    q := NormalizePath(path, allowRoot).value;
    hide NormalizePath;
  }

  /** What normalisation has fixed about an entry. */
  lemma NormalFields(n: ManifestEntry)
    requires NormalEntry(n) == Some(n)
    ensures NormalPath(n.path, n.kind.DirType?) == Some(n.path) && !n.kind.UnknownType?
    ensures NormalMetadata(n.metadata) == Some(n.metadata)
    ensures n.kind.FileType? ==> NormalContent(n.content) == Some(n.content)
    ensures n.kind.HardlinkType? ==> NormalPath(n.sourcePath, false) == Some(n.sourcePath)
    ensures n.kind.SymlinkType? && n.targetType.ManifestPath? ==> NormalPath(n.linkTarget, true) == Some(n.linkTarget)
    ensures n.kind.SpecialFileType? ==> n.special.Some? && n.special.value.kind.Some?
  {
    NoMetadataIsNormal();
    hide NormalPath, NormalMetadata, Trim, ContentOk;
  }

  lemma BackToBase(base: Path, q: Path)
    requires Canonical(base) && Canonical(q)
    ensures OperationPathToFS(Render(base), Render(q)) == Some(Render(base + q)) && Clean(Render(base + q)) == base + q
    ensures Canonical(base + q) && base <= base + q && (base + q)[|base|..] == q
  {
    ToFilesystem(base, q);
    CleanRender(base + q);
  }

  /** Converting back gives the same type at the translated path. */
  lemma Replanned(base: Path, n: ManifestEntry, p: Path, s: Path)
    requires OperationPathToFS(Render(base), n.path) == Some(Render(p)) && Clean(Render(p)) == p
    requires !n.kind.UnknownType? && ToConfig(n.metadata).Some?
    requires n.kind.FileType? ==> ToContent(n.content).Some?
    requires n.kind.SymlinkType? && n.targetType.ManifestPath? ==> OperationPathToFS(Render(base), n.linkTarget).Some?
    requires n.kind.HardlinkType? ==> OperationPathToFS(Render(base), n.sourcePath) == Some(Render(s)) && Clean(Render(s)) == s
    requires n.kind.SpecialFileType? ==> n.special.Some? && n.special.value.kind.Some?
    ensures ToPlanned(base, n).Some?
    ensures var e := ToPlanned(base, n).value; e.path == p && TypeOf(e) == n.kind && (e.HardlinkEntry? ==> e.source == s)
  {
    hide OperationPathToFS, Render, Clean, ToConfig, ToContent;
  }

  lemma ReplannedShows(base: Path, e: Entry, n: ManifestEntry, q: Path, s: Path)
    requires Canonical(q) && Canonical(base + q) && n.path == Render(q) && e.path == base + q && TypeOf(e) == n.kind
    requires e.HardlinkEntry? ==> Canonical(s) && Canonical(base + s) && n.sourcePath == Render(s) && e.source == base + s
    ensures Shows(base, e, n)
  {
    hide Render, Canonical;
    assert (base + q)[|base|..] == q && (base + s)[|base|..] == s;
  }

  /** An entry of a normal manifest converts, to an entry it shows. */
  lemma ReplanShows(base: Path, n: ManifestEntry)
    requires Canonical(base) && NormalEntry(n) == Some(n)
    ensures ToPlanned(base, n).Some? && Shows(base, ToPlanned(base, n).value, n)
  {
    NormalFields(n);
    assert ToConfig(n.metadata).Some?;
    if n.kind.FileType? { assert ToContent(n.content).Some?; }
    hide *;
    var q := NormalPathIsRendered(n.path, n.kind.DirType?);
    BackToBase(base, q);
    var s, t: Path := [], [];
    if n.kind.HardlinkType? {
      s := NormalPathIsRendered(n.sourcePath, false);
      BackToBase(base, s);
    }
    if n.kind.SymlinkType? && n.targetType.ManifestPath? {
      t := NormalPathIsRendered(n.linkTarget, true);
      BackToBase(base, t);
    }
    Replanned(base, n, base + q, base + s);
    var e := ToPlanned(base, n).value;
    assert e.HardlinkEntry? <==> TypeOf(e).HardlinkType?;
    ReplannedShows(base, e, n, q, s);
  }

  lemma {:induction false} ManifestShows(base: Path, n: seq<ManifestEntry>)
    requires Canonical(base) && NormalEntries(n) == Some(n)
    ensures ToPlan(base, n).Some? && AllShow(base, ToPlan(base, n).value, n)
    decreases n
  {
    hide NormalEntry, ToPlanned, Shows;
    if n != [] {
      var front, last := n[..|n| - 1], n[|n| - 1];
      NormalParts(n);
      ManifestShows(base, front);
      ReplanShows(base, last);
    }
  }

  lemma NormalParts(n: seq<ManifestEntry>)
    requires n != [] && NormalEntries(n) == Some(n)
    ensures NormalEntries(n[..|n| - 1]) == Some(n[..|n| - 1]) && NormalEntry(n[|n| - 1]) == Some(n[|n| - 1])
  {
    hide NormalEntry;
    var front, last := NormalEntries(n[..|n| - 1]).value, NormalEntry(n[|n| - 1]).value;
    assert n == front + [last];
  }

  /** Each hard link stands after its source. */
  predicate SourcesFirst(n: seq<ManifestEntry>) {
    forall i :: 0 <= i < |n| && n[i].kind.HardlinkType? ==> PathAt(n[..i], n[i].sourcePath)
  }

  /** In a structured manifest a source listed earlier is a regular one. */
  lemma EarlierSource(base: Path, entries: seq<Entry>, n: seq<ManifestEntry>, i: nat)
    requires AllShow(base, entries, n) && i < |n| && Structured(n)
    ensures SourceEarlier(entries, i) <==> (n[i].kind.HardlinkType? ==> PathAt(n[..i], n[i].sourcePath))
  {
    assert Shows(base, entries[i], n[i]);
    if entries[i].HardlinkEntry? {
      PrefixShows(base, entries, n, i);
      TypesShow(base, entries[..i], n[..i], entries[i].source);
      if PathAt(n[..i], n[i].sourcePath) {
        assert LinksResolve(n, n[i]);
        SoleType(n, i, n[i].sourcePath);
      } else {
        assert !TypedAt(n[..i], n[i].sourcePath, {FileType, HardlinkType});
      }
    }
  }

  lemma PathsDiffer(n: seq<ManifestEntry>, j: nat, k: nat)
    requires j < k < |n| && Placed(n, k)
    ensures n[j].path != n[k].path
  {
    hide ParentString;
    assert n[..k][j] == n[j];
  }

  /** Paths are unique, so what the whole manifest has at a path its prefix has there too. */
  lemma SoleType(n: seq<ManifestEntry>, i: nat, path: string)
    requires i <= |n| && (forall k :: 0 <= k < |n| ==> Placed(n, k))
    requires PathAt(n[..i], path) && TypedAt(n, path, {FileType, HardlinkType})
    ensures TypedAt(n[..i], path, {FileType, HardlinkType})
  {
    var j :| 0 <= j < i && n[..i][j].path == path;
    var k :| 0 <= k < |n| && n[k].path == path && n[k].kind in {FileType, HardlinkType};
    hide Placed;
    if j < k { PathsDiffer(n, j, k); }
    if k < j { PathsDiffer(n, k, j); }
    assert n[..i][j].kind in {FileType, HardlinkType};
  }

  /**
    Every normal manifest gives a plan, and the plan is well-formed exactly when each hard link
    stands after its source: the one thing the structure check does not look at.
   */
  lemma NormalManifestPlans(base: Path, m: Scenario)
    requires Canonical(base) && Normal(m) == Some(m)
    ensures ToPlan(base, m.entries).Some?
    ensures WellFormedPlan(base, ToPlan(base, m.entries).value) <==> SourcesFirst(m.entries)
  {
    NormalManifestEntries(m);
    ManifestShows(base, m.entries);
    var n, entries := m.entries, ToPlan(base, m.entries).value;
    ShapesAgree(base, entries, n);
    forall i | 0 <= i < |n| ensures SourceEarlier(entries, i) <==> (n[i].kind.HardlinkType? ==> PathAt(n[..i], n[i].sourcePath)) {
      assert |entries| == |n| by { ShowLengths(base, entries, n); }
      EarlierSource(base, entries, n, i);
    }
    hide ToPlan, NormalEntries, AllShow, SourceEarlier, PathAt, WellFormedPlan, Normal, Placed, LinksResolve;
  }

  lemma NormalManifestEntries(m: Scenario)
    requires Normal(m) == Some(m)
    ensures NormalEntries(m.entries) == Some(m.entries) && Structured(m.entries)
  {
    hide NormalSettings, NormalCapabilities, NormalEntries, NormalOperations, Structured, Declared, Lower, Trim;
  }

  // ---------------------------------------------------------------- a link before its source

  lemma ParentIsRoot(name: string)
    requires ValidName(name)
    ensures "/" + name != ROOT && ParentString("/" + name) == ROOT
  {
    assert [name][1..] == [];
    assert Slashed([name]) == "/" + name;
    assert Canonical([name]);
    DirIsParent([name]);
    assert Parent([name]) == [];
  }

  lemma LinkFirst(root: ManifestEntry, link: ManifestEntry, file: ManifestEntry)
    requires root.kind == DirType && root.path == ROOT && link.kind == HardlinkType && file.kind == FileType
    requires link.path != ROOT && file.path != ROOT && link.path != file.path && link.sourcePath == file.path
    requires ParentString(link.path) == ROOT && ParentString(file.path) == ROOT
    ensures Structured([root, link, file])
  {
    hide ParentString;
    var m := [root, link, file];
    forall k | 1 <= k <= 3 ensures TypedAt(m[..k], ROOT, {DirType}) {
      assert m[..k][0].path == ROOT && m[..k][0].kind in {DirType};
    }
    assert Placed(m, 0) && Placed(m, 1) && Placed(m, 2);
    assert m[2].path == file.path && m[2].kind in {FileType, HardlinkType};
    assert TypedAt(m, link.sourcePath, {FileType, HardlinkType});
  }

  lemma RootChild(name: string)
    requires ValidName(name)
    ensures NormalPath("/" + name, false) == Some("/" + name)
  {
    assert [name][1..] == [];
    assert Slashed([name]) == "/" + name && Canonical([name]);
    NormalPathOf([name]);
  }

  lemma RootPath()
    ensures NormalPath(ROOT, true) == Some(ROOT)
  {
    NormalizePathFixpoint([], true);
  }

  /** A directory `/`, a link `/b` to `/a`, and then the file `/a`. */
  function LinkFirstEntries(mode: nat): seq<ManifestEntry> {
    [Blank(DirType, ROOT, mode), Blank(HardlinkType, "/b", 0).(sourcePath := "/a"), Blank(FileType, "/a", mode)]
  }

  function LinkFirstManifest(mode: nat): Scenario {
    Scenario(VERSION_MIN, 0, PlanApply.Strict, 3, [], LinkFirstEntries(mode), [], [], "", "")
  }

  lemma RootNormal(mode: nat)
    requires ModeKept(mode)
    ensures var e := Blank(DirType, ROOT, mode); NormalEntry(e) == Some(e)
  {
    RootPath();
    NoMetadataIsNormal();
    hide NormalPath, NormalMetadata;
  }

  lemma FileNormalAt(path: string, mode: nat)
    requires ModeKept(mode) && NormalPath(path, false) == Some(path)
    ensures var e := Blank(FileType, path, mode); NormalEntry(e) == Some(e)
  {
    NoMetadataIsNormal();
    hide NormalPath, NormalMetadata;
  }

  lemma LinkNormalAt(path: string, source: string)
    requires NormalPath(path, false) == Some(path) && NormalPath(source, false) == Some(source) && path != source
    ensures var e := Blank(HardlinkType, path, 0).(sourcePath := source); NormalEntry(e) == Some(e)
  {
    hide NormalPath, NormalMetadata;
  }

  lemma {:induction false} AllNormal(n: seq<ManifestEntry>)
    requires forall i :: 0 <= i < |n| ==> NormalEntry(n[i]) == Some(n[i])
    ensures NormalEntries(n) == Some(n)
  {
    hide NormalEntry;
    if n != [] {
      var front := n[..|n| - 1];
      AllNormal(front);
      assert n == front + [n[|n| - 1]];
    }
  }

  lemma ThreeNormal(a: ManifestEntry, b: ManifestEntry, c: ManifestEntry)
    requires NormalEntry(a) == Some(a) && NormalEntry(b) == Some(b) && NormalEntry(c) == Some(c)
    ensures NormalEntries([a, b, c]) == Some([a, b, c])
  {
    hide NormalEntry;
    AllNormal([a, b, c]);
  }

  lemma ChildrenPaths()
    ensures NormalPath("/a", false) == Some("/a") && NormalPath("/b", false) == Some("/b") && "/a" != "/b"
  {
    assert "/b" == "/" + "b" && "/a" == "/" + "a" && "/a"[1] != "/b"[1];
    RootChild("a");
    RootChild("b");
  }

  lemma LinkFirstEntriesNormal(mode: nat)
    requires ModeKept(mode)
    ensures NormalEntries(LinkFirstEntries(mode)) == Some(LinkFirstEntries(mode))
  {
    ChildrenPaths();
    hide NormalEntry, NormalPath, NormalEntries, Blank;
    RootNormal(mode);
    FileNormalAt("/a", mode);
    LinkNormalAt("/b", "/a");
    ThreeNormal(Blank(DirType, ROOT, mode), Blank(HardlinkType, "/b", 0).(sourcePath := "/a"), Blank(FileType, "/a", mode));
  }

  lemma LinkFirstStructured(mode: nat)
    ensures Structured(LinkFirstEntries(mode))
  {
    assert "/b" == "/" + "b" && "/a" == "/" + "a" && "/a"[1] != "/b"[1];
    ParentIsRoot("a");
    ParentIsRoot("b");
    hide ParentString, Structured;
    var n := LinkFirstEntries(mode);
    LinkFirst(n[0], n[1], n[2]);
  }

  lemma EmptyLists()
    ensures NormalSettings([]) == Some([]) && NormalCapabilities([]) == Some([]) && NormalOperations([]) == Some([])
    ensures Lower(Trim("")) == ""
  {
  }

  lemma NothingNeeded(mode: nat)
    ensures Needs(LinkFirstEntries(mode), []) == {}
  {
    forall e | e in LinkFirstEntries(mode) ensures EntryNeeds(e) == {} { }
    hide EntryNeeds, LinkFirstEntries;
  }

  lemma LinkFirstNormal(mode: nat)
    requires ModeKept(mode)
    ensures Normal(LinkFirstManifest(mode)) == Some(LinkFirstManifest(mode))
  {
    LinkFirstEntriesNormal(mode);
    LinkFirstStructured(mode);
    EmptyLists();
    NothingNeeded(mode);
    hide NormalSettings, NormalCapabilities, NormalEntries, NormalOperations, Structured, Needs, Lower, Trim, LinkFirstEntries;
  }

  lemma LinkComesFirst(mode: nat)
    ensures !SourcesFirst(LinkFirstEntries(mode))
  {
    var n := LinkFirstEntries(mode);
    assert "/a"[1] != "/"[0] && |"/a"| != |ROOT|;
    assert n[1].kind.HardlinkType? && n[1].sourcePath == "/a" && !PathAt(n[..1], "/a");
  }

  /** The instance: this manifest is normal, and its plan is not well-formed. */
  lemma LinkBeforeSource(base: Path, mode: nat)
    requires Canonical(base) && ModeKept(mode)
    ensures var m := LinkFirstManifest(mode);
      Normal(m) == Some(m) && ToPlan(base, m.entries).Some? && !WellFormedPlan(base, ToPlan(base, m.entries).value)
  {
    LinkFirstNormal(mode);
    LinkComesFirst(mode);
    hide Normal, ToPlan, WellFormedPlan, SourcesFirst, LinkFirstEntries;
    NormalManifestPlans(base, LinkFirstManifest(mode));
  }
}
