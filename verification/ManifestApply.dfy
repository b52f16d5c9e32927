/**
  Applying a manifest's plan to an empty base: it goes through exactly when each hard link stands
  after its source, since the structure check of manifest.go does not look at their order.
 */
module ManifestApply {
  import opened Wrappers
  import opened Paths
  import opened FileSystem
  import opened PlanSpec
  import opened PlanApply
  import opened PlanGrowth
  import opened PlanRuns
  import opened PlanLinks
  import ME = ManifestEntries
  import Manifest
  import opened ManifestShapes
  import opened ManifestReplans

  /** A link whose source is not there yet stops the forward pass. */
  lemma LateSourceStops(kernel: Kernel, mode: RunMode, base: Path, start: Fs, entries: seq<Entry>, i: nat)
    requires Healthy(start) && NothingBelow(start, base) && i < |entries| && WellFormedPlan(base, entries[..i])
    requires entries[i].HardlinkEntry? && base < entries[i].path && base < entries[i].source
    requires entries[i].path !in PathsOf(entries[..i]) && entries[i].source !in PathsOf(entries[..i])
    ensures Forward(kernel, mode, base, start, entries).error.Some?
  {
    var before := Forward(kernel, mode, base, start, entries[..i]);
    if before.error.Some? {
      ForwardStops(kernel, mode, base, start, entries, i);
    } else {
      ForwardResult(kernel, mode, base, start, entries[..i]);
      assert entries[..i + 1][..i] == entries[..i];
      NotThere(start, before.fs, base, entries[..i], entries[i].path);
      NotThere(start, before.fs, base, entries[..i], entries[i].source);
      assert NextEntry(kernel, mode, base, before, entries[i]).error.Some?;
      hide ApplyEntry, NextEntry;
      ForwardStops(kernel, mode, base, start, entries, i + 1);
    }
  }

  lemma NotThere(start: Fs, fs: Fs, base: Path, entries: seq<Entry>, p: Path)
    requires NamesFrom(start, fs, base, entries) && NothingBelow(start, base) && base < p && p !in PathsOf(entries)
    ensures !Exists(fs, p)
  {
  }

  /** The least position that breaks the order. */
  lemma FirstLate(n: seq<ME.ManifestEntry>) returns (i: nat)
    requires !SourcesFirst(n)
    ensures i < |n| && n[i].kind.HardlinkType? && !Manifest.PathAt(n[..i], n[i].sourcePath)
    ensures forall k :: 0 <= k < i && n[k].kind.HardlinkType? ==> Manifest.PathAt(n[..k], n[k].sourcePath)
  {
    i := 0;
    while !(n[i].kind.HardlinkType? && !Manifest.PathAt(n[..i], n[i].sourcePath))
      invariant i < |n|
      invariant forall k :: 0 <= k < i && n[k].kind.HardlinkType? ==> Manifest.PathAt(n[..k], n[k].sourcePath)
      decreases |n| - i
    {
      hide Manifest.PathAt;
      i := i + 1;
    }
  }

  lemma PlacedPrefix(n: seq<ME.ManifestEntry>, i: nat, k: nat)
    requires k < i <= |n| && Manifest.Placed(n, k)
    ensures Manifest.Placed(n[..i], k)
  {
    assert n[..i][..k] == n[..k] && n[..i][..k + 1] == n[..k + 1];
  }

  /** Up to the first late link the plan is well-formed. */
  lemma FrontWellFormed(base: Path, entries: seq<Entry>, n: seq<ME.ManifestEntry>, i: nat)
    requires AllShow(base, entries, n) && Manifest.Structured(n) && 0 < i <= |n|
    requires forall k :: 0 <= k < i && n[k].kind.HardlinkType? ==> Manifest.PathAt(n[..k], n[k].sourcePath)
    ensures WellFormedPlan(base, entries[..i])
  {
    ShowLengths(base, entries, n);
    PrefixShows(base, entries, n, i);
    forall k | 0 <= k < i ensures Manifest.Placed(n[..i], k) { PlacedPrefix(n, i, k); }
    forall k | 0 <= k < i ensures SourceEarlier(entries[..i], k) {
      EarlierSource(base, entries, n, k);
      assert entries[..i][..k] == entries[..k] && entries[..i][k] == entries[k];
    }
    assert n[..i][0] == n[0];
    hide AllShow, Manifest.Placed, SourceEarlier, Manifest.PathAt, WellFormedPlan;
    ShapesAgree(base, entries[..i], n[..i]);
  }

  /** Where the late link and its source are. */
  lemma LateLink(base: Path, entries: seq<Entry>, n: seq<ME.ManifestEntry>, i: nat)
    requires AllShow(base, entries, n) && Manifest.Structured(n) && i < |n|
    requires n[i].kind.HardlinkType? && !Manifest.PathAt(n[..i], n[i].sourcePath)
    ensures i > 0 && i < |entries| && entries[i].HardlinkEntry? && base < entries[i].path && base < entries[i].source
    ensures entries[i].path !in PathsOf(entries[..i]) && entries[i].source !in PathsOf(entries[..i])
  {
    assert i > 0 && n[..i][0] == n[0];
    var e := entries[i];
    assert ManifestShapes.Shows(base, e, n[i]) && Manifest.Placed(n, i);
    PrefixShows(base, entries, n, i);
    PathsShow(base, entries[..i], n[..i], e.path);
    PathsShow(base, entries[..i], n[..i], e.source);
    RootBelow(base, e.path);
    RootBelow(base, e.source);
    hide AllShow, TextBelow, ManifestShapes.Shows, Manifest.TypedAt, Manifest.ParentString;
  }

  /**
    Every applicable plan of a normal manifest, on an empty base and in any known mode, applies
    exactly when each hard link stands after its source.
   */
  lemma ManifestPlanApplies(kernel: Kernel, mode: RunMode, base: Path, fs: Fs, m: Manifest.Scenario)
    requires base != [] && Canonical(base) && Healthy(fs) && Usable(Prepared(mode, base, fs), base) && !mode.UnknownMode?
    requires Manifest.Normal(m) == Some(m)
    requires ToPlan(base, m.entries).Some? ==> AllApplicable(kernel, ToPlan(base, m.entries).value)
    ensures ToPlan(base, m.entries).Some?
    ensures ApplyPlan(kernel, mode, base, fs, ToPlan(base, m.entries).value).error.None? <==> SourcesFirst(m.entries)
  {
    NormalManifestPlans(base, m);
    NormalManifestEntries(m);
    ManifestShows(base, m.entries);
    var entries, n := ToPlan(base, m.entries).value, m.entries;
    hide ToPlan, Manifest.Normal, Manifest.NormalEntries, Manifest.Structured, AllShow, AllApplicable, Prepared, SourcesFirst;
    if SourcesFirst(n) {
      PlanSucceeds(kernel, mode, base, fs, entries);
    } else {
      var i := FirstLate(n);
      LateLink(base, entries, n, i);
      FrontWellFormed(base, entries, n, i);
      UsableBase(Prepared(mode, base, fs), base);
      hide Usable, Forward, WellFormedPlan, Healthy, NothingBelow;
      LateSourceStops(kernel, mode, base, Prepared(mode, base, fs), entries, i);
      StoppedRun(kernel, mode, base, fs, entries);
    }
  }

  lemma UsableBase(start: Fs, base: Path)
    requires Usable(start, base)
    ensures Healthy(start) && NothingBelow(start, base)
  {
  }

  lemma StoppedRun(kernel: Kernel, mode: RunMode, base: Path, fs: Fs, entries: seq<Entry>)
    requires base != [] && Forward(kernel, mode, base, Prepared(mode, base, fs), entries).error.Some?
    ensures ApplyPlan(kernel, mode, base, fs, entries).error.Some?
  {
    hide Forward, Prepared;
  }
}
