/**
  Whole runs of a plan: what a successful forward pass leaves, what the reverse pass finalises,
  and the promises of the run modes.
 */
module PlanRuns {
  import opened Wrappers
  import opened Sorting
  import opened Paths
  import opened FileSystem
  import opened RealOperations
  import opened PlanSpec
  import opened PlanApply
  import opened PlanGrowth

  // ---------------------------------------------------------------- the forward pass

  /** Every planned path is there, as the kind of thing the plan says. */
  ghost predicate Present(fs: Fs, entries: seq<Entry>) {
    forall e :: e in entries ==> Exists(fs, e.path) && SameKind(At(fs, e.path), e)
  }

  /** Entries that were not there before look exactly as planned. */
  ghost predicate CreatedShow(kernel: Kernel, start: Fs, fs: Fs, entries: seq<Entry>) {
    forall e :: e in entries && e.path !in start.tree ==> Shows(kernel, fs, e)
  }

  /** Only planned paths and missing parents of the base were added. */
  ghost predicate NamesFrom(start: Fs, fs: Fs, base: Path, entries: seq<Entry>) {
    forall q :: q in fs.tree ==> q in start.tree || q <= base || q in PathsOf(entries)
  }

  /** In strict mode nothing but the base was there before. */
  ghost predicate FreshIfStrict(mode: RunMode, start: Fs, base: Path, entries: seq<Entry>) {
    mode == Strict ==> forall e :: e in entries && e.path in start.tree ==> e.path == base
  }

  ghost function CreatedDirs(start: Fs, entries: seq<Entry>): set<Path> {
    set e | e in entries && e.DirEntry? && e.path !in start.tree :: e.path
  }

  lemma PresentSnoc(before: Fs, after: Fs, entries: seq<Entry>, e: Entry)
    requires Present(before, entries) && Extends(before, after)
    requires Exists(after, e.path) && SameKind(At(after, e.path), e)
    ensures Present(after, entries + [e])
  {
    forall h | h in entries + [e] ensures Exists(after, h.path) && SameKind(At(after, h.path), h) {
      if h in entries { ExtendsAt(before, after, h.path); }
    }
  }

  lemma CreatedShowSnoc(kernel: Kernel, start: Fs, before: Fs, after: Fs, entries: seq<Entry>, e: Entry)
    requires CreatedShow(kernel, start, before, entries) && Extends(before, after)
    requires e.path !in start.tree ==> Shows(kernel, after, e)
    ensures CreatedShow(kernel, start, after, entries + [e])
  {
    forall h | h in entries + [e] && h.path !in start.tree ensures Shows(kernel, after, h) {
      if h in entries { ShowsKept(kernel, before, after, h); }
    }
  }

  /** A planned path that may follow is new exactly when it was not there at the start. */
  lemma NewIsFresh(start: Fs, before: Fs, base: Path, entries: seq<Entry>, e: Entry)
    requires Extends(start, before) && NamesFrom(start, before, base, entries) && MayFollow(base, entries, e)
    requires entries == [] ==> before == start
    ensures e.path in before.tree <==> e.path in start.tree
  {
  }

  lemma NamesSnoc(kernel: Kernel, start: Fs, before: Fs, outcome: Outcome, base: Path, entries: seq<Entry>, e: Entry)
    requires NamesFrom(start, before, base, entries) && MayFollow(base, entries, e) && Present(before, entries)
    requires StepGrows(kernel, before, outcome, e) && outcome.result.Ok?
    ensures NamesFrom(start, outcome.fs, base, entries + [e])
  {
    SnocPaths(entries, e);
    if entries != [] {
      assert ParentIsDir(before, e.path) by { ParentIsPresent(before, base, entries, e); }
      hide MayFollow, Healthy, Extends, Present;
    }
  }

  lemma ParentIsPresent(fs: Fs, base: Path, entries: seq<Entry>, e: Entry)
    requires Present(fs, entries) && MayFollow(base, entries, e) && entries != []
    ensures ParentIsDir(fs, e.path)
  {
    var d :| d in entries && d.DirEntry? && d.path == Parent(e.path);
  }

  /** After an accepted step the entry is there as planned. */
  lemma StepPresent(kernel: Kernel, mode: RunMode, base: Path, before: Fs, entries: seq<Entry>, e: Entry)
    requires Healthy(before) && Present(before, entries) && MayFollow(base, entries, e)
    requires ApplyEntry(kernel, mode, base, before, e).result.Ok?
    ensures var after := ApplyEntry(kernel, mode, base, before, e).fs;
            Exists(after, e.path) && SameKind(At(after, e.path), e)
  {
    ApplyEntryGrows(kernel, mode, base, before, e);
    var outcome := ApplyEntry(kernel, mode, base, before, e);
    if outcome.result.value {
      if e.HardlinkEntry? {
        var s :| s in entries && Regular(s) && s.path == e.source;
        ExtendsAt(before, outcome.fs, e.source);
      }
    }
  }

  ghost predicate Forwarded(kernel: Kernel, mode: RunMode, base: Path, start: Fs, after: Progress, entries: seq<Entry>) {
    && Healthy(after.fs) && Extends(start, after.fs)
    && Present(after.fs, entries)
    && CreatedShow(kernel, start, after.fs, entries)
    && NamesFrom(start, after.fs, base, entries)
    && FreshIfStrict(mode, start, base, entries)
    && after.created == CreatedDirs(start, entries)
    && (entries == [] ==> after.fs == start)
  }

  lemma NextForwarded(kernel: Kernel, mode: RunMode, base: Path, start: Fs, before: Progress, entries: seq<Entry>, e: Entry)
    requires Forwarded(kernel, mode, base, start, before, entries) && MayFollow(base, entries, e)
    requires NextEntry(kernel, mode, base, before, e).error.None?
    ensures Forwarded(kernel, mode, base, start, NextEntry(kernel, mode, base, before, e), entries + [e])
  {
    hide Present, CreatedShow, NamesFrom, Healthy, Extends, Shows, ApplyEntry, MayFollow, SameKind, FreshIfStrict, CreatedDirs;
    var outcome := ApplyEntry(kernel, mode, base, before.fs, e);
    ApplyEntryGrows(kernel, mode, base, before.fs, e);
    StepPresent(kernel, mode, base, before.fs, entries, e);
    NewIsFresh(start, before.fs, base, entries, e);
    ExtendsTransitive(start, before.fs, outcome.fs);
    PresentSnoc(before.fs, outcome.fs, entries, e);
    CreatedShowSnoc(kernel, start, before.fs, outcome.fs, entries, e);
    NamesSnoc(kernel, start, before.fs, outcome, base, entries, e);
    FreshSnoc(kernel, mode, base, start, before.fs, entries, e);
    CreatedSnoc(start, entries, e);
  }

  lemma CreatedSnoc(start: Fs, entries: seq<Entry>, e: Entry)
    ensures CreatedDirs(start, entries + [e]) ==
            CreatedDirs(start, entries) + if e.DirEntry? && e.path !in start.tree then {e.path} else {}
  {
  }

  /** What strict mode accepts is either new or the base directory. */
  lemma FreshSnoc(kernel: Kernel, mode: RunMode, base: Path, start: Fs, before: Fs, entries: seq<Entry>, e: Entry)
    requires Healthy(before) && FreshIfStrict(mode, start, base, entries) && Extends(start, before)
    requires ApplyEntry(kernel, mode, base, before, e).result.Ok?
    ensures FreshIfStrict(mode, start, base, entries + [e])
  {
  }

  /** A successful forward pass over a well-formed plan. */
  lemma {:induction false} ForwardResult(kernel: Kernel, mode: RunMode, base: Path, start: Fs, entries: seq<Entry>)
    requires Healthy(start) && WellFormedPlan(base, entries)
    requires Forward(kernel, mode, base, start, entries).error.None?
    ensures Forwarded(kernel, mode, base, start, Forward(kernel, mode, base, start, entries), entries)
    decreases entries
  {
    if entries != [] {
      var front, last := entries[..|entries| - 1], entries[|entries| - 1];
      assert entries == front + [last];
      ForwardResult(kernel, mode, base, start, front);
      hide Forwarded, NextEntry;
      NextForwarded(kernel, mode, base, start, Forward(kernel, mode, base, start, front), front, last);
    }
  }

  // ---------------------------------------------------------------- the reverse pass

  /** Ancestors of a planned path, from the base down, are planned. */
  lemma {:induction false} AncestorsPlanned(base: Path, entries: seq<Entry>, q: Path, a: Path)
    requires WellFormedPlan(base, entries) && q in PathsOf(entries) && base <= a <= q
    ensures a in PathsOf(entries)
    decreases entries, |q|
  {
    var front, last := entries[..|entries| - 1], entries[|entries| - 1];
    assert entries == front + [last];
    SnocPaths(front, last);
    if q in PathsOf(front) {
      AncestorsPlanned(base, front, q, a);
    } else if a != q {
      assert front != [] && Parent(q) in PathsOf(front);
      AncestorsPlanned(base, front, Parent(q), a);
    }
  }

  /** A directory is planned before its descendants, so an unplanned path has none. */
  lemma NoLaterAncestor(base: Path, entries: seq<Entry>, e: Entry, q: Path)
    requires WellFormedPlan(base, entries) && MayFollow(base, entries, e) && q in PathsOf(entries)
    ensures !(e.path < q)
  {
    if e.path < q {
      AncestorsPlanned(base, entries, q, e.path);
    }
  }

  function Sees(fs: Fs, p: Path): Option<Inode> {
    if Exists(fs, p) then Some(At(fs, p)) else None
  }

  /** No ancestor comes before its descendant. */
  predicate DescendantsFirst(s: seq<Path>) {
    forall k, l :: 0 <= k < l < |s| ==> !(s[k] < s[l])
  }

  /** The directories the reverse pass still has to finalise, untouched so far. */
  ghost predicate Unfinished(fs: Fs, entries: seq<Entry>, created: set<Path>) {
    forall e :: e in entries && e.DirEntry? && e.path in created ==>
      Sees(fs, e.path) == Some(DirInode(NewMeta(e.mode)))
  }

  /** Finalised directories carry their planned metadata, everything else is as it was. */
  ghost predicate Finished(before: Fs, finish: Finish, entries: seq<Entry>, created: set<Path>) {
    && Healthy(finish.fs) && finish.fs.tree == before.tree
    && Distinct(finish.finalized) && DescendantsFirst(finish.finalized)
    && (forall p :: p in finish.finalized <==> p in DirPaths(entries) && p in created)
    && (forall e :: e in entries && e.DirEntry? && e.path in created ==>
          Sees(finish.fs, e.path) == Some(DirInode(PlannedMeta(e.mode, e.metadata))))
    && (forall q :: q in before.tree && !(q in DirPaths(entries) && q in created) ==> Sees(finish.fs, q) == Sees(before, q))
  }

  /** Finalising one directory: no other path is affected, not even its parent. */
  lemma FinalizeOne(kernel: Kernel, fs: Fs, e: Entry)
    requires Healthy(fs) && e.DirEntry? && Sees(fs, e.path) == Some(DirInode(NewMeta(e.mode)))
    requires FinalizeDir(kernel, fs, e.path, e.mode, e.metadata).result.Ok?
    ensures var after := FinalizeDir(kernel, fs, e.path, e.mode, e.metadata).fs;
            Healthy(after) && after.tree == fs.tree
            && Sees(after, e.path) == Some(DirInode(PlannedMeta(e.mode, e.metadata)))
            && (forall q :: q in fs.tree && q != e.path ==> Sees(after, q) == Sees(fs, q))
  {
    DressedAsPlanned(e.mode, e.metadata);
    var inode := DirInode(PlannedMeta(e.mode, e.metadata));
    UpdateHealthy(fs, e.path, inode);
  }

  lemma UnfinishedFront(base: Path, before: Fs, after: Fs, entries: seq<Entry>, e: Entry, created: set<Path>)
    requires Unfinished(before, entries + [e], created) && e.path !in PathsOf(entries)
    requires Healthy(before) && Healthy(after) && after.tree == before.tree
    requires forall q :: q in before.tree && q != e.path ==> Sees(after, q) == Sees(before, q)
    ensures Unfinished(after, entries, created)
  {
    forall h | h in entries && h.DirEntry? && h.path in created
      ensures Sees(after, h.path) == Some(DirInode(NewMeta(h.mode)))
    {
      assert h in entries + [e] && h.path in PathsOf(entries);
    }
  }

  lemma FinishedSkip(before: Fs, finish: Finish, entries: seq<Entry>, e: Entry, created: set<Path>)
    requires Finished(before, finish, entries, created) && !(e.DirEntry? && e.path in created)
    ensures Finished(before, finish, entries + [e], created)
  {
    SnocPaths(entries, e);
  }

  lemma FinishedSnoc(base: Path, before: Fs, after: Fs, rest: Finish, entries: seq<Entry>, e: Entry, created: set<Path>)
    requires WellFormedPlan(base, entries) && MayFollow(base, entries, e)
    requires Healthy(before) && e.DirEntry? && e.path in created && e.path in before.tree && after.tree == before.tree
    requires Sees(after, e.path) == Some(DirInode(PlannedMeta(e.mode, e.metadata)))
    requires forall q :: q in before.tree && q != e.path ==> Sees(after, q) == Sees(before, q)
    requires Finished(after, rest, entries, created)
    ensures Finished(before, rest.(finalized := [e.path] + rest.finalized), entries + [e], created)
  {
    var finish := rest.(finalized := [e.path] + rest.finalized);
    FinishedPaths(base, after, rest, entries, e, created);
    SnocPaths(entries, e);
    MayFollowFresh(base, entries, e);
    hide WellFormedPlan, MayFollow, PlannedMeta, Distinct, DescendantsFirst, Healthy;
    FinishedOrder(e.path, rest.finalized);
    forall h | h in entries + [e] && h.DirEntry? && h.path in created
      ensures Sees(finish.fs, h.path) == Some(DirInode(PlannedMeta(h.mode, h.metadata)))
    {
      if h !in entries { assert h == e && e.path !in DirPaths(entries); }
    }
  }

  lemma FinishedPaths(base: Path, fs: Fs, rest: Finish, entries: seq<Entry>, e: Entry, created: set<Path>)
    requires WellFormedPlan(base, entries) && MayFollow(base, entries, e) && Finished(fs, rest, entries, created)
    ensures forall p :: p in rest.finalized ==> p != e.path && !(e.path < p)
  {
    forall p | p in rest.finalized ensures p != e.path && !(e.path < p) {
      assert p in DirPaths(entries) && p in PathsOf(entries);
      NoLaterAncestor(base, entries, e, p);
    }
  }

  lemma FinishedOrder(p: Path, rest: seq<Path>)
    requires Distinct(rest) && DescendantsFirst(rest) && forall q :: q in rest ==> q != p && !(p < q)
    ensures Distinct([p] + rest) && DescendantsFirst([p] + rest)
  {
    var s := [p] + rest;
    forall k, l | 0 <= k < l < |s| ensures s[k] != s[l] && !(s[k] < s[l]) {
      assert s[l] == rest[l - 1] && rest[l - 1] in rest;
      if k == 0 {
        assert s[k] == p;
      } else {
        assert s[k] == rest[k - 1] && rest[k - 1] != rest[l - 1] && !(rest[k - 1] < rest[l - 1]);
      }
    }
  }

  /** A successful reverse pass over a well-formed plan. */
  lemma {:induction false} BackwardResult(kernel: Kernel, base: Path, fs: Fs, entries: seq<Entry>, created: set<Path>)
    requires Healthy(fs) && WellFormedPlan(base, entries) && Unfinished(fs, entries, created)
    requires Backward(kernel, fs, entries, created).error.None?
    ensures Finished(fs, Backward(kernel, fs, entries, created), entries, created)
    decreases entries
  {
    if entries != [] {
      var front, last := entries[..|entries| - 1], entries[|entries| - 1];
      assert entries == front + [last];
      MayFollowFresh(base, front, last);
      if !(last.DirEntry? && last.path in created) {
        assert Unfinished(fs, front, created);
        BackwardResult(kernel, base, fs, front, created);
        FinishedSkip(fs, Backward(kernel, fs, front, created), front, last, created);
      } else {
        FinalizeOne(kernel, fs, last);
        var after := FinalizeDir(kernel, fs, last.path, last.mode, last.metadata).fs;
        hide FinalizeDir, Finished, PlannedMeta;
        UnfinishedFront(base, fs, after, front, last, created);
        BackwardResult(kernel, base, after, front, created);
        FinishedSnoc(base, fs, after, Backward(kernel, after, front, created), front, last, created);
      }
    }
  }

  // ---------------------------------------------------------------- the run

  lemma PreparedHealthy(mode: RunMode, base: Path, fs: Fs)
    requires Healthy(fs) && base != []
    ensures Healthy(Prepared(mode, base, fs))
  {
    if mode == Replace && Exists(fs, base) {
      var pruned := fs.(tree := map p | p in fs.tree && !(base <= p) :: fs.tree[p]);
      assert Healthy(pruned);
      TouchAges(pruned, Parent(base));
    }
  }

  /** Directories created by the forward pass wait for the reverse pass as they were made. */
  lemma CreatedUnfinished(kernel: Kernel, start: Fs, fs: Fs, base: Path, entries: seq<Entry>)
    requires CreatedShow(kernel, start, fs, entries) && WellFormedPlan(base, entries)
    ensures Unfinished(fs, entries, CreatedDirs(start, entries))
  {
    forall e | e in entries && e.DirEntry? && e.path in CreatedDirs(start, entries)
      ensures Sees(fs, e.path) == Some(DirInode(NewMeta(e.mode)))
    {
      assert Shows(kernel, fs, e);
    }
  }

  /**
    A successful run of a well-formed plan. Each directory it created is finalised exactly
    once, after all its descendants, and ends with its planned metadata although children were
    created in it; everything else it created has its planned bytes, target and metadata; what
    was there before keeps its place.
   */
  lemma RunResult(kernel: Kernel, mode: RunMode, base: Path, fs: Fs, entries: seq<Entry>)
    requires Healthy(fs) && base != [] && WellFormedPlan(base, entries)
    requires ApplyPlan(kernel, mode, base, fs, entries).error.None?
    ensures var start := Prepared(mode, base, fs);
            var forward := Forward(kernel, mode, base, start, entries);
            !mode.UnknownMode? && forward.error.None? && Forwarded(kernel, mode, base, start, forward, entries)
            && Finished(forward.fs, ApplyPlan(kernel, mode, base, fs, entries), entries, CreatedDirs(start, entries))
  {
    var start := Prepared(mode, base, fs);
    PreparedHealthy(mode, base, fs);
    ForwardResult(kernel, mode, base, start, entries);
    var forward := Forward(kernel, mode, base, start, entries);
    CreatedUnfinished(kernel, start, forward.fs, base, entries);
    BackwardResult(kernel, base, forward.fs, entries, forward.created);
  }

  /** What a created entry looks like once the run is over. */
  ghost predicate ShowsFinally(kernel: Kernel, fs: Fs, e: Entry) {
    if e.DirEntry? then Sees(fs, e.path) == Some(DirInode(PlannedMeta(e.mode, e.metadata))) else Shows(kernel, fs, e)
  }

  /** Planned metadata survives: the final look of everything the run created. */
  lemma CreatedAsPlanned(kernel: Kernel, mode: RunMode, base: Path, fs: Fs, entries: seq<Entry>, e: Entry)
    requires Healthy(fs) && base != [] && WellFormedPlan(base, entries)
    requires ApplyPlan(kernel, mode, base, fs, entries).error.None?
    requires e in entries && e.path !in Prepared(mode, base, fs).tree
    ensures ShowsFinally(kernel, ApplyPlan(kernel, mode, base, fs, entries).fs, e)
  {
    RunResult(kernel, mode, base, fs, entries);
    var start := Prepared(mode, base, fs);
    var forward := Forward(kernel, mode, base, start, entries);
    var finish := ApplyPlan(kernel, mode, base, fs, entries);
    hide ApplyPlan, Forward, Prepared, Healthy;
    assert Shows(kernel, forward.fs, e);
    if !e.DirEntry? {
      NotADirPath(base, entries, e);
      assert Sees(finish.fs, e.path) == Sees(forward.fs, e.path);
    } else {
      assert e.path in CreatedDirs(start, entries);
    }
  }

  lemma {:induction false} NotADirPath(base: Path, entries: seq<Entry>, e: Entry)
    requires WellFormedPlan(base, entries) && e in entries && !e.DirEntry?
    ensures e.path !in DirPaths(entries)
    decreases entries
  {
    var front, last := entries[..|entries| - 1], entries[|entries| - 1];
    assert entries == front + [last];
    SnocPaths(front, last);
    MayFollowFresh(base, front, last);
    if e in front {
      NotADirPath(base, front, e);
      assert e.path in PathsOf(front);
    }
  }

  /** Strict mode: success means that no planned path but the base was there. */
  lemma StrictMeansFresh(kernel: Kernel, base: Path, fs: Fs, entries: seq<Entry>, e: Entry)
    requires Healthy(fs) && base != [] && WellFormedPlan(base, entries)
    requires ApplyPlan(kernel, Strict, base, fs, entries).error.None?
    requires e in entries && e.path in fs.tree
    ensures e.path == base
  {
    RunResult(kernel, Strict, base, fs, entries);
  }

  // ---------------------------------------------------------------- applying twice

  lemma {:induction false} ForwardAgain(kernel: Kernel, base: Path, fs: Fs, entries: seq<Entry>)
    requires Present(fs, entries)
    ensures Forward(kernel, Append, base, fs, entries) == Progress(fs, {}, None)
    decreases entries
  {
    if entries != [] {
      var front, last := entries[..|entries| - 1], entries[|entries| - 1];
      assert entries == front + [last];
      assert last in entries && Present(fs, front);
      ForwardAgain(kernel, base, fs, front);
    }
  }

  lemma {:induction false} NothingToFinalize(kernel: Kernel, fs: Fs, entries: seq<Entry>)
    ensures Backward(kernel, fs, entries, {}) == Finish(fs, [], None)
    decreases entries
  {
    if entries != [] {
      NothingToFinalize(kernel, fs, entries[..|entries| - 1]);
    }
  }

  /** After any successful run the plan is present in full. */
  lemma RunPresent(kernel: Kernel, mode: RunMode, base: Path, fs: Fs, entries: seq<Entry>)
    requires Healthy(fs) && base != [] && WellFormedPlan(base, entries)
    requires ApplyPlan(kernel, mode, base, fs, entries).error.None?
    ensures Present(ApplyPlan(kernel, mode, base, fs, entries).fs, entries)
  {
    RunResult(kernel, mode, base, fs, entries);
    var start := Prepared(mode, base, fs);
    var forward := Forward(kernel, mode, base, start, entries);
    var finish := ApplyPlan(kernel, mode, base, fs, entries);
    hide ApplyPlan, Forward, Prepared;
    forall e | e in entries ensures Exists(finish.fs, e.path) && SameKind(At(finish.fs, e.path), e) {
      if e.DirEntry? {
        if e.path in CreatedDirs(start, entries) {
          assert Sees(finish.fs, e.path).Some?;
        } else {
          assert Sees(finish.fs, e.path) == Sees(forward.fs, e.path);
        }
      } else {
        NotADirPath(base, entries, e);
        assert Sees(finish.fs, e.path) == Sees(forward.fs, e.path);
      }
    }
  }

  /** Applying a plan in append mode after any successful run of it changes nothing at all. */
  lemma AppendAgainChangesNothing(kernel: Kernel, mode: RunMode, base: Path, fs: Fs, entries: seq<Entry>)
    requires Healthy(fs) && base != [] && WellFormedPlan(base, entries)
    requires ApplyPlan(kernel, mode, base, fs, entries).error.None?
    ensures var first := ApplyPlan(kernel, mode, base, fs, entries);
            ApplyPlan(kernel, Append, base, first.fs, entries) == Finish(first.fs, [], None)
  {
    RunPresent(kernel, mode, base, fs, entries);
    var first := ApplyPlan(kernel, mode, base, fs, entries);
    ForwardAgain(kernel, base, first.fs, entries);
    NothingToFinalize(kernel, first.fs, entries);
  }
}
