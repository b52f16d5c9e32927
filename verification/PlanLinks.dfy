/**
  When applying a plan succeeds, and which names then share an inode: the plan's hard link
  classes, no more and no less.
 */
module PlanLinks {
  import opened Wrappers
  import opened Paths
  import opened FileSystem
  import opened RealOperations
  import opened PlanSpec
  import ContentPatterns
  import opened PlanApply
  import opened PlanGrowth
  import opened PlanRuns

  // ---------------------------------------------------------------- shared inodes

  /** Regular paths share an inode exactly when the plan's links lead to the same file. */
  ghost predicate SharesOrigins(fs: Fs, entries: seq<Entry>) {
    forall p, q :: p in RegularPaths(entries) && q in RegularPaths(entries) && p in fs.tree && q in fs.tree ==>
      (fs.tree[p] == fs.tree[q] <==> Origin(entries, p) == Origin(entries, q))
  }

  ghost predicate NothingBelow(fs: Fs, base: Path) {
    forall q :: q in fs.tree ==> !(base < q)
  }

  lemma FileSharesNothing(base: Path, before: Fs, after: Fs, entries: seq<Entry>, e: Entry)
    requires WellFormedPlan(base, entries) && MayFollow(base, entries, e) && e.FileEntry?
    requires Healthy(before) && Extends(before, after) && Present(before, entries) && SharesOrigins(before, entries)
    requires e.path in after.tree && after.tree[e.path] !in before.inodes
    ensures SharesOrigins(after, entries + [e])
  {
    SnocPaths(entries, e);
    MayFollowFresh(base, entries, e);
    OriginSnoc(entries, e, e.path);
    NotAnEntry(entries, e.path);
    hide Origin, WellFormedPlan, MayFollow, Healthy, Extends, Present;
    forall p, q | p in RegularPaths(entries + [e]) && q in RegularPaths(entries + [e]) && p in after.tree && q in after.tree
      ensures after.tree[p] == after.tree[q] <==> Origin(entries + [e], p) == Origin(entries + [e], q)
    {
      if p != e.path {
        OldOrigin(base, entries, e, p);
        OldNumber(before, after, entries, e, p);
      }
      if q != e.path {
        OldOrigin(base, entries, e, q);
        OldNumber(before, after, entries, e, q);
      }
    }
  }

  lemma OldNumber(before: Fs, after: Fs, entries: seq<Entry>, e: Entry, p: Path)
    requires Extends(before, after) && Present(before, entries) && p in RegularPaths(entries)
    requires e.path in after.tree && after.tree[e.path] !in before.inodes
    ensures p in before.tree && p in after.tree && after.tree[p] == before.tree[p] && after.tree[p] != after.tree[e.path]
  {
    RegularPresent(before, entries, p);
  }

  lemma OldOrigin(base: Path, entries: seq<Entry>, e: Entry, p: Path)
    requires WellFormedPlan(base, entries) && e.path !in PathsOf(entries) && p in RegularPaths(entries)
    ensures Origin(entries + [e], p) == Origin(entries, p) != e.path
  {
    SnocPaths(entries, e);
    OriginSnoc(entries, e, p);
    OriginIsFile(base, entries, p);
  }

  lemma RegularPresent(fs: Fs, entries: seq<Entry>, p: Path)
    requires Present(fs, entries) && p in RegularPaths(entries)
    ensures IsFile(fs, p) && p in fs.tree && fs.tree[p] in fs.inodes
  {
    var e :| e in entries && Regular(e) && e.path == p;
  }

  lemma LinkSharesSource(base: Path, before: Fs, after: Fs, entries: seq<Entry>, e: Entry)
    requires MayFollow(base, entries, e) && e.HardlinkEntry?
    requires Extends(before, after) && Present(before, entries) && SharesOrigins(before, entries)
    requires e.path in after.tree && e.source in after.tree && after.tree[e.path] == after.tree[e.source]
    ensures SharesOrigins(after, entries + [e])
  {
    SnocPaths(entries, e);
    forall p, q | p in RegularPaths(entries + [e]) && q in RegularPaths(entries + [e]) && p in after.tree && q in after.tree
      ensures after.tree[p] == after.tree[q] <==> Origin(entries + [e], p) == Origin(entries + [e], q)
    {
      OriginSnoc(entries, e, p);
      OriginSnoc(entries, e, q);
      var p' := if p == e.path then e.source else p;
      var q' := if q == e.path then e.source else q;
      RegularPresent(before, entries, p');
      RegularPresent(before, entries, q');
    }
  }

  lemma OtherSharesNothing(before: Fs, after: Fs, entries: seq<Entry>, e: Entry)
    requires !Regular(e) && Extends(before, after) && Present(before, entries) && SharesOrigins(before, entries)
    ensures SharesOrigins(after, entries + [e])
  {
    SnocPaths(entries, e);
    forall p, q | p in RegularPaths(entries + [e]) && q in RegularPaths(entries + [e]) && p in after.tree && q in after.tree
      ensures after.tree[p] == after.tree[q] <==> Origin(entries + [e], p) == Origin(entries + [e], q)
    {
      OriginSnoc(entries, e, p);
      OriginSnoc(entries, e, q);
      RegularPresent(before, entries, p);
      RegularPresent(before, entries, q);
    }
  }

  lemma FreshBelowBase(base: Path, start: Fs, before: Fs, entries: seq<Entry>, e: Entry)
    requires NothingBelow(start, base) && MayFollow(base, entries, e) && entries != []
    requires Extends(start, before) && NamesFrom(start, before, base, entries)
    ensures e.path !in start.tree && e.path !in before.tree
  {
    NewIsFresh(start, before, base, entries, e);
  }

  lemma {:induction false} ForwardShares(kernel: Kernel, mode: RunMode, base: Path, start: Fs, entries: seq<Entry>)
    requires Healthy(start) && WellFormedPlan(base, entries) && NothingBelow(start, base)
    requires Forward(kernel, mode, base, start, entries).error.None?
    ensures SharesOrigins(Forward(kernel, mode, base, start, entries).fs, entries)
    decreases entries
  {
    if entries != [] {
      var front, last := entries[..|entries| - 1], entries[|entries| - 1];
      assert entries == front + [last];
      ForwardShares(kernel, mode, base, start, front);
      ForwardResult(kernel, mode, base, start, front);
      var before := Forward(kernel, mode, base, start, front).fs;
      NextShares(kernel, mode, base, start, before, front, last);
    }
  }

  lemma NextShares(kernel: Kernel, mode: RunMode, base: Path, start: Fs, before: Fs, entries: seq<Entry>, e: Entry)
    requires WellFormedPlan(base, entries) && MayFollow(base, entries, e) && NothingBelow(start, base)
    requires Healthy(before) && Extends(start, before) && Present(before, entries) && NamesFrom(start, before, base, entries)
    requires SharesOrigins(before, entries) && (entries == [] ==> before == start)
    requires ApplyEntry(kernel, mode, base, before, e).result.Ok?
    ensures SharesOrigins(ApplyEntry(kernel, mode, base, before, e).fs, entries + [e])
  {
    var outcome := ApplyEntry(kernel, mode, base, before, e);
    ApplyEntryGrows(kernel, mode, base, before, e);
    if !Regular(e) {
      OtherSharesNothing(before, outcome.fs, entries, e);
    } else {
      FreshBelowBase(base, start, before, entries, e);
      hide ApplyEntry, MayFollow, Healthy, Extends, NamesFrom, SharesOrigins, WellFormedPlan, NothingBelow;
      if e.FileEntry? {
        FileSharesNothing(base, before, outcome.fs, entries, e);
      } else {
        LinkSharesSource(base, before, outcome.fs, entries, e);
      }
    }
  }

  // ---------------------------------------------------------------- success

  /** Nothing about the entry itself stands in the way of applying it. */
  predicate Applicable(kernel: Kernel, e: Entry) {
    match e
    case DirEntry(_, mode, metadata) => !NegativeOwner(metadata) && !RefusesACL(kernel, mode, true, metadata)
    case FileEntry(_, mode, _, content, metadata) =>
      (content.Some? ==> ContentPatterns.ValidContent(content.value)) && !NegativeOwner(metadata) && !RefusesACL(kernel, mode, false, metadata)
    case SymlinkEntry(_, _, metadata) => !NegativeOwner(metadata)
    case HardlinkEntry(_, _) => true
    case SpecialEntry(_, mode, kind, major, minor, metadata) =>
      (IsDevice(kind) ==> major >= 0 && minor >= 0) && !NegativeOwner(metadata) && !RefusesACL(kernel, mode, false, metadata)
  }

  /** A base directory that is empty, or missing below an existing directory. */
  ghost predicate Usable(fs: Fs, base: Path) {
    && Healthy(fs) && Rooted(fs) && IsDir(fs, [])
    && !Blocked(fs, base) && NothingBelow(fs, base)
    && (base in fs.tree ==> IsDir(fs, base))
  }

  lemma {:induction false} RootedUnblocked(fs: Fs, p: Path)
    requires Healthy(fs) && Rooted(fs) && (p == [] || IsDir(fs, Parent(p)))
    ensures !Blocked(fs, p)
    decreases |p|
  {
    if p != [] {
      RootedUnblocked(fs, Parent(p));
    }
  }

  lemma {:induction false} MkdirAllSucceeds(fs: Fs, p: Path, mode: nat)
    requires IsDir(fs, []) && !Blocked(fs, p) && (Exists(fs, p) ==> IsDir(fs, p))
    ensures MkdirAll(fs, p, mode).Some?
    decreases |p|
  {
    if !IsDir(fs, p) {
      MkdirAllSucceeds(fs, Parent(p), mode);
    }
  }

  lemma RootedGrows(before: Fs, after: Fs, p: Path)
    requires Rooted(before) && Extends(before, after) && after.tree.Keys == before.tree.Keys + {p}
    requires p != [] && IsDir(after, Parent(p))
    ensures Rooted(after)
  {
    forall q | q in after.tree && q != [] ensures IsDir(after, Parent(q)) {
      if q != p { ExtendsAt(before, after, Parent(q)); }
    }
  }

  lemma {:induction false} MkdirAllRooted(fs: Fs, p: Path, mode: nat)
    requires Healthy(fs) && Rooted(fs) && MkdirAll(fs, p, mode).Some?
    ensures Rooted(MkdirAll(fs, p, mode).value)
    decreases |p|
  {
    if !IsDir(fs, p) {
      MkdirAllRooted(fs, Parent(p), mode);
      MkdirAllGrows(fs, Parent(p), mode);
      var above := MkdirAll(fs, Parent(p), mode).value;
      hide Healthy, Rooted;
      assert p !in above.tree by { ExistsIsNamed(fs, p); }
      AddGrows(above, p, DirInode(NewMeta(mode)));
      hide FileSystem.Add, MkdirAll;
      assert IsDir(FileSystem.Add(above, p, DirInode(NewMeta(mode))), Parent(p)) by {
        ExtendsAt(above, FileSystem.Add(above, p, DirInode(NewMeta(mode))), Parent(p));
      }
      RootedGrows(above, FileSystem.Add(above, p, DirInode(NewMeta(mode))), p);
    }
  }

  /** Creating a child of a directory that is there. */
  lemma CreateSucceeds(kernel: Kernel, fs: Fs, e: Entry)
    requires Healthy(fs) && e.path !in fs.tree && ParentIsDir(fs, e.path) && Applicable(kernel, e)
    requires e.HardlinkEntry? ==> IsFile(fs, e.source)
    ensures Create(kernel, fs, e).result == Ok(true)
  {
    match e
    case FileEntry(p, mode, _, _, _) =>
      AddGrows(fs, p, FileInode(NewMeta(mode), FileBytes(kernel, e).value));
    case SymlinkEntry(p, target, _) =>
      AddGrows(fs, p, SymlinkInode(NewMeta(LINK_MODE), target));
    case SpecialEntry(p, mode, kind, major, minor, _) =>
      AddGrows(fs, p, SpecialFor(kind, mode, major, minor));
    case DirEntry(p, mode, _) =>
      assert MkdirAll(fs, Parent(p), mode) == Some(fs);
    case HardlinkEntry(_, _) =>
  }

  /** The entries after the first: each is created below a planned directory. */
  lemma LaterEntrySucceeds(kernel: Kernel, mode: RunMode, base: Path, start: Fs, before: Fs, entries: seq<Entry>, e: Entry)
    requires Healthy(before) && Rooted(before) && Extends(start, before) && Present(before, entries)
    requires NamesFrom(start, before, base, entries) && NothingBelow(start, base)
    requires MayFollow(base, entries, e) && entries != [] && Applicable(kernel, e)
    ensures ApplyEntry(kernel, mode, base, before, e).result == Ok(true)
    ensures Rooted(ApplyEntry(kernel, mode, base, before, e).fs)
  {
    FreshBelowBase(base, start, before, entries, e);
    ParentIsPresent(before, base, entries, e);
    RootedUnblocked(before, e.path);
    if e.HardlinkEntry? { RegularPresent(before, entries, e.source); }
    ApplyEntryGrows(kernel, mode, base, before, e);
    hide Rooted, Extends, NamesFrom, NothingBelow, MayFollow, Applicable, Present, Blocked, Create;
    CreateSucceeds(kernel, before, e);
    var after := ApplyEntry(kernel, mode, base, before, e).fs;
    ExtendsAt(before, after, Parent(e.path));
    RootedGrows(before, after, e.path);
  }

  lemma FirstEntrySucceeds(kernel: Kernel, mode: RunMode, base: Path, start: Fs, e: Entry)
    requires Usable(start, base) && MayFollow(base, [], e)
    ensures ApplyEntry(kernel, mode, base, start, e).result.Ok?
    ensures Rooted(ApplyEntry(kernel, mode, base, start, e).fs)
  {
    if !Exists(start, base) {
      MkdirAllSucceeds(start, base, e.mode);
      MkdirAllRooted(start, base, e.mode);
    }
  }

  ghost predicate AllApplicable(kernel: Kernel, entries: seq<Entry>) {
    forall e :: e in entries ==> Applicable(kernel, e)
  }

  lemma {:induction false} ForwardSucceeds(kernel: Kernel, mode: RunMode, base: Path, start: Fs, entries: seq<Entry>)
    requires Usable(start, base) && WellFormedPlan(base, entries) && AllApplicable(kernel, entries)
    ensures Forward(kernel, mode, base, start, entries).error.None?
    ensures Rooted(Forward(kernel, mode, base, start, entries).fs)
    decreases entries
  {
    hide Forward, AllApplicable, Usable, WellFormedPlan, Rooted, Forwarded, ApplyEntry, Applicable, MayFollow, Healthy;
    ForwardUnrolls(kernel, mode, base, start, entries);
    if entries == [] {
      assert Rooted(start) by { UsableRooted(start, base); }
    } else {
      var front, last := entries[..|entries| - 1], entries[|entries| - 1];
      PlanParts(kernel, base, entries);
      assert Healthy(start) by { UsableRooted(start, base); }
      ForwardSucceeds(kernel, mode, base, start, front);
      ForwardResult(kernel, mode, base, start, front);
      NextSucceeds(kernel, mode, base, start, Forward(kernel, mode, base, start, front), front, last);
    }
  }

  lemma UsableRooted(fs: Fs, base: Path)
    requires Usable(fs, base)
    ensures Healthy(fs) && Rooted(fs)
  {
  }

  lemma ForwardUnrolls(kernel: Kernel, mode: RunMode, base: Path, start: Fs, entries: seq<Entry>)
    ensures entries == [] ==> Forward(kernel, mode, base, start, entries) == Progress(start, {}, None)
    ensures entries != [] ==>
      var before := Forward(kernel, mode, base, start, entries[..|entries| - 1]);
      before.error.None? ==>
      Forward(kernel, mode, base, start, entries) == NextEntry(kernel, mode, base, before, entries[|entries| - 1])
  {
  }

  lemma PlanParts(kernel: Kernel, base: Path, entries: seq<Entry>)
    requires WellFormedPlan(base, entries) && AllApplicable(kernel, entries) && entries != []
    ensures var front, last := entries[..|entries| - 1], entries[|entries| - 1];
            WellFormedPlan(base, front) && MayFollow(base, front, last)
            && AllApplicable(kernel, front) && Applicable(kernel, last)
  {
  }

  lemma NextSucceeds(kernel: Kernel, mode: RunMode, base: Path, start: Fs, before: Progress, entries: seq<Entry>, e: Entry)
    requires Usable(start, base) && MayFollow(base, entries, e) && Applicable(kernel, e)
    requires Forwarded(kernel, mode, base, start, before, entries) && Rooted(before.fs)
    ensures ApplyEntry(kernel, mode, base, before.fs, e).result.Ok?
    ensures Rooted(ApplyEntry(kernel, mode, base, before.fs, e).fs)
  {
    hide ApplyEntry, Rooted, Healthy, Applicable, MayFollow;
    if entries == [] {
      FirstEntrySucceeds(kernel, mode, base, start, e);
    } else {
      LaterEntrySucceeds(kernel, mode, base, start, before.fs, entries, e);
    }
  }

  lemma {:induction false} BackwardSucceeds(kernel: Kernel, base: Path, fs: Fs, entries: seq<Entry>, created: set<Path>)
    requires Healthy(fs) && WellFormedPlan(base, entries) && Unfinished(fs, entries, created) && AllApplicable(kernel, entries)
    ensures Backward(kernel, fs, entries, created).error.None?
    decreases entries
  {
    if entries != [] {
      var front, last := entries[..|entries| - 1], entries[|entries| - 1];
      assert entries == front + [last];
      MayFollowFresh(base, front, last);
      assert Applicable(kernel, last) && AllApplicable(kernel, front);
      if !(last.DirEntry? && last.path in created) {
        assert Unfinished(fs, front, created);
        BackwardSucceeds(kernel, base, fs, front, created);
      } else {
        assert FinalizeDir(kernel, fs, last.path, last.mode, last.metadata).result.Ok?;
        FinalizeOne(kernel, fs, last);
        var after := FinalizeDir(kernel, fs, last.path, last.mode, last.metadata).fs;
        hide FinalizeDir, AllApplicable, Applicable;
        UnfinishedFront(base, fs, after, front, last, created);
        BackwardSucceeds(kernel, base, after, front, created);
      }
    }
  }

  /** After any successful application to an empty base, files share an inode exactly when they have one origin. */
  lemma AppliedShares(kernel: Kernel, mode: RunMode, base: Path, fs: Fs, entries: seq<Entry>)
    requires base != [] && Healthy(fs) && WellFormedPlan(base, entries) && NothingBelow(Prepared(mode, base, fs), base)
    requires ApplyPlan(kernel, mode, base, fs, entries).error.None?
    ensures SharesOrigins(ApplyPlan(kernel, mode, base, fs, entries).fs, entries)
  {
    RunResult(kernel, mode, base, fs, entries);
    PreparedHealthy(mode, base, fs);
    hide ApplyPlan, Prepared, Forward;
    ForwardShares(kernel, mode, base, Prepared(mode, base, fs), entries);
  }

  /**
    A well-formed plan of applicable entries can be applied to an empty base, in every mode;
    afterwards two regular paths share an inode exactly when they are in one planned class.
   */
  lemma PlanSucceeds(kernel: Kernel, mode: RunMode, base: Path, fs: Fs, entries: seq<Entry>)
    requires base != [] && Healthy(fs) && Usable(Prepared(mode, base, fs), base) && !mode.UnknownMode?
    requires WellFormedPlan(base, entries) && AllApplicable(kernel, entries)
    ensures ApplyPlan(kernel, mode, base, fs, entries).error.None?
    ensures SharesOrigins(ApplyPlan(kernel, mode, base, fs, entries).fs, entries)
  {
    var start := Prepared(mode, base, fs);
    ForwardSucceeds(kernel, mode, base, start, entries);
    ForwardResult(kernel, mode, base, start, entries);
    ForwardShares(kernel, mode, base, start, entries);
    var forward := Forward(kernel, mode, base, start, entries);
    CreatedUnfinished(kernel, start, forward.fs, base, entries);
    BackwardSucceeds(kernel, base, forward.fs, entries, forward.created);
    BackwardResult(kernel, base, forward.fs, entries, forward.created);
  }
}
