/**
  plan.go's `applyRunPlan` and `applyPlannedEntry`: a forward pass that creates what is missing
  and a reverse pass that finalises the metadata of the directories it created. Functions say
  what each pass does to a filesystem; `PlanRunner` is the procedure.
 */
module PlanApply {
  import opened Wrappers
  import opened Paths
  import opened FileSystem
  import opened RealOperations
  import opened PlanSpec
  import opened ContentPatterns

  datatype RunMode = Append | Strict | Replace | UnknownMode(code: nat)

  datatype ApplyError =
    | ModeInvalid
    | AlreadyPresent | IncompatibleKind | InspectFailed
    | CreateFailed | ContentFailed | LinkFailed
    | DeviceNumberInvalid | OwnerNegative | ACLRefused

  /** What is not modelled: the random byte streams, and which ACL texts can be applied. */
  datatype Kernel = Kernel(random: Random, aclAllowed: (nat, bool, seq<string>) -> bool)

  /** The state after a step, and whether it created something or failed. */
  datatype Outcome = Outcome(fs: Fs, result: Result<bool, ApplyError>)

  // ---------------------------------------------------------------- metadata

  predicate NegativeOwner(metadata: Metadata) {
    metadata.owner.Some? && (metadata.owner.value.0 < 0 || metadata.owner.value.1 < 0)
  }

  function OrElse<T>(chosen: Option<T>, otherwise: Option<T>): Option<T> {
    if chosen.Some? then chosen else otherwise
  }

  /** Owner, mode, times and extended attributes; the ACL comes last. */
  function Dressed(meta: Meta, mode: nat, metadata: Metadata): Meta {
    Meta(mode, OrElse(metadata.owner, meta.owner), OrElse(metadata.times, meta.times),
         if metadata.xattrs.Some? then meta.xattrs + metadata.xattrs.value else meta.xattrs, meta.acl)
  }

  function FullyDressed(meta: Meta, mode: nat, metadata: Metadata): Meta {
    var dressed := Dressed(meta, mode, metadata);
    if metadata.acl.Some? then dressed.(acl := metadata.acl.value) else dressed
  }

  predicate RefusesACL(kernel: Kernel, mode: nat, isDir: bool, metadata: Metadata) {
    metadata.acl.Some? && !kernel.aclAllowed(mode, isDir, metadata.acl.value)
  }

  /** applyMetadata: the first failing step stops it. */
  function ApplyMetadata(kernel: Kernel, fs: Fs, p: Path, mode: nat, metadata: Metadata): Outcome
    requires Exists(fs, p)
  {
    var inode := At(fs, p);
    if NegativeOwner(metadata) then Outcome(fs, Err(OwnerNegative))
    else if RefusesACL(kernel, mode, inode.DirInode?, metadata) then
      Outcome(Update(fs, p, WithMeta(inode, Dressed(inode.meta, mode, metadata))), Err(ACLRefused))
    else
      Outcome(Update(fs, p, WithMeta(inode, FullyDressed(inode.meta, mode, metadata))), Ok(true))
  }

  /** applyLinkMetadata: owner and times only. */
  function ApplyLinkMetadata(fs: Fs, p: Path, metadata: Metadata): Outcome
    requires Exists(fs, p)
  {
    var inode := At(fs, p);
    if NegativeOwner(metadata) then Outcome(fs, Err(OwnerNegative))
    else
      var meta := inode.meta.(owner := OrElse(metadata.owner, inode.meta.owner), times := OrElse(metadata.times, inode.meta.times));
      Outcome(Update(fs, p, WithMeta(inode, meta)), Ok(true))
  }

  // ---------------------------------------------------------------- one entry

  /** os.MkdirAll */
  function MkdirAll(fs: Fs, p: Path, mode: nat): Option<Fs>
    decreases |p|
  {
    if IsDir(fs, p) then Some(fs)
    else if Exists(fs, p) || p == [] then None
    else
      var above := MkdirAll(fs, Parent(p), mode);
      if above.None? then None else Some(FileSystem.Add(above.value, p, DirInode(NewMeta(mode))))
  }

  /** Some ancestor is there and is no directory, so the path cannot even be inspected. */
  predicate Blocked(fs: Fs, p: Path)
    decreases |p|
  {
    p != [] && ((Exists(fs, Parent(p)) && !IsDir(fs, Parent(p))) || Blocked(fs, Parent(p)))
  }

  predicate SameKind(inode: Inode, e: Entry) {
    match e
    case DirEntry(_, _, _) => inode.DirInode?
    case FileEntry(_, _, _, _, _) => inode.FileInode?
    case SymlinkEntry(_, _, _) => inode.SymlinkInode?
    case HardlinkEntry(_, _) => inode.FileInode?
    case SpecialEntry(_, _, kind, _, _, _) => inode.SpecialInode? && inode.kind == kind
  }

  /** A file entry's bytes; none when its content cannot be written. */
  function FileBytes(kernel: Kernel, e: Entry): Option<seq<Byte>>
    requires e.FileEntry?
  {
    match e.content
    case None => Some(e.data)
    case Some(content) => if ValidContent(content) then Some(Bytes(kernel.random, content)) else None
  }

  function SpecialFor(kind: SpecialType, mode: nat, major: int, minor: int): Inode {
    if IsDevice(kind) then SpecialInode(NewMeta(mode), kind, major, minor) else SpecialInode(NewMeta(mode), kind, 0, 0)
  }

  const LINK_MODE := 0x1ff

  function Create(kernel: Kernel, fs: Fs, e: Entry): Outcome {
    match e
    case DirEntry(p, mode, _) =>
      var made := MkdirAll(fs, p, mode);
      if made.None? then Outcome(fs, Err(CreateFailed)) else Outcome(made.value, Ok(true))
    case FileEntry(p, mode, _, _, metadata) =>
      if !ParentIsDir(fs, p) then Outcome(fs, Err(CreateFailed))
      else
        var bytes := FileBytes(kernel, e);
        if bytes.None? then Outcome(FileSystem.Add(fs, p, FileInode(NewMeta(mode), [])), Err(ContentFailed))
        else ApplyMetadata(kernel, FileSystem.Add(fs, p, FileInode(NewMeta(mode), bytes.value)), p, mode, metadata)
    case SymlinkEntry(p, target, metadata) =>
      if !ParentIsDir(fs, p) then Outcome(fs, Err(CreateFailed))
      else ApplyLinkMetadata(FileSystem.Add(fs, p, SymlinkInode(NewMeta(LINK_MODE), target)), p, metadata)
    case HardlinkEntry(p, source) =>
      if !ParentIsDir(fs, p) || !Exists(fs, source) || IsDir(fs, source) then Outcome(fs, Err(LinkFailed))
      else Outcome(Link(fs, source, p), Ok(true))
    case SpecialEntry(p, mode, kind, major, minor, metadata) =>
      if IsDevice(kind) && (major < 0 || minor < 0) then Outcome(fs, Err(DeviceNumberInvalid))
      else if !ParentIsDir(fs, p) then Outcome(fs, Err(CreateFailed))
      else ApplyMetadata(kernel, FileSystem.Add(fs, p, SpecialFor(kind, mode, major, minor)), p, mode, metadata)
  }

  /** applyPlannedEntry */
  function ApplyEntry(kernel: Kernel, mode: RunMode, base: Path, fs: Fs, e: Entry): Outcome {
    if Exists(fs, e.path) then
      if mode == Strict then
        if e.DirEntry? && e.path == base && IsDir(fs, e.path) then Outcome(fs, Ok(false))
        else Outcome(fs, Err(AlreadyPresent))
      else if SameKind(At(fs, e.path), e) then Outcome(fs, Ok(false))
      else Outcome(fs, Err(IncompatibleKind))
    else if Blocked(fs, e.path) then Outcome(fs, Err(InspectFailed))
    else Create(kernel, fs, e)
  }

  // ---------------------------------------------------------------- the two passes

  /** The forward pass so far: the filesystem, the directories created, the first error. */
  datatype Progress = Progress(fs: Fs, created: set<Path>, error: Option<ApplyError>)

  function NextEntry(kernel: Kernel, mode: RunMode, base: Path, before: Progress, e: Entry): Progress {
    var outcome := ApplyEntry(kernel, mode, base, before.fs, e);
    if outcome.result.Err? then Progress(outcome.fs, before.created, Some(outcome.result.error))
    else Progress(outcome.fs, if outcome.result.value && e.DirEntry? then before.created + {e.path} else before.created, None)
  }

  function Forward(kernel: Kernel, mode: RunMode, base: Path, fs: Fs, entries: seq<Entry>): Progress
    decreases entries
  {
    if entries == [] then Progress(fs, {}, None)
    else
      var before := Forward(kernel, mode, base, fs, entries[..|entries| - 1]);
      if before.error.Some? then before else NextEntry(kernel, mode, base, before, entries[|entries| - 1])
  }

  /** The reverse pass: the filesystem, the directories finalised in order, the first error. */
  datatype Finish = Finish(fs: Fs, finalized: seq<Path>, error: Option<ApplyError>)

  /** applyMetadata on a directory's path: the path has to be there. */
  function FinalizeDir(kernel: Kernel, fs: Fs, p: Path, mode: nat, metadata: Metadata): Outcome {
    if Exists(fs, p) then ApplyMetadata(kernel, fs, p, mode, metadata) else Outcome(fs, Err(InspectFailed))
  }

  function Backward(kernel: Kernel, fs: Fs, entries: seq<Entry>, created: set<Path>): Finish
    decreases entries
  {
    if entries == [] then Finish(fs, [], None)
    else
      var front, last := entries[..|entries| - 1], entries[|entries| - 1];
      if !(last.DirEntry? && last.path in created) then Backward(kernel, fs, front, created)
      else
        var outcome := FinalizeDir(kernel, fs, last.path, last.mode, last.metadata);
        if outcome.result.Err? then Finish(outcome.fs, [], Some(outcome.result.error))
        else
          var rest := Backward(kernel, outcome.fs, front, created);
          rest.(finalized := [last.path] + rest.finalized)
  }

  /** os.RemoveAll */
  function RemoveAll(fs: Fs, p: Path): Fs
    requires p != []
  {
    if Exists(fs, p) then RemoveTree(fs, p) else fs
  }

  function Prepared(mode: RunMode, base: Path, fs: Fs): Fs
    requires base != []
  {
    if mode == Replace then RemoveAll(fs, base) else fs
  }

  /** applyRunPlan */
  function ApplyPlan(kernel: Kernel, mode: RunMode, base: Path, fs: Fs, entries: seq<Entry>): Finish
    requires base != []
  {
    if mode.UnknownMode? then Finish(fs, [], Some(ModeInvalid))
    else
      var forward := Forward(kernel, mode, base, Prepared(mode, base, fs), entries);
      if forward.error.Some? then Finish(forward.fs, [], forward.error)
      else Backward(kernel, forward.fs, entries, forward.created)
  }

  /** The procedure over a filesystem it changes in place. */
  class PlanRunner {
    const kernel: Kernel
    const mode: RunMode
    const base: Path
    var fs: Fs
    var appliedEntries: nat
    var finalizedDirectories: nat

    constructor (kernel: Kernel, mode: RunMode, base: Path, fs: Fs)
      ensures this.kernel == kernel && this.mode == mode && this.base == base && this.fs == fs
      ensures appliedEntries == 0 && finalizedDirectories == 0
    {
      this.kernel, this.mode, this.base, this.fs := kernel, mode, base, fs;
      appliedEntries, finalizedDirectories := 0, 0;
    }

    /** The loop over the plan. */
    method CreateEntries(entries: seq<Entry>) returns (createdDirs: set<Path>, error: Option<ApplyError>)
      modifies this`fs, this`appliedEntries
      ensures Progress(fs, createdDirs, error) == Forward(kernel, mode, base, old(fs), entries)
      ensures error.None? ==> appliedEntries == old(appliedEntries) + |entries|
    {
      ghost var start := fs;
      createdDirs, error := {}, None;
      for i := 0 to |entries|
        invariant error.None? && appliedEntries == old(appliedEntries) + i
        invariant Progress(fs, createdDirs, None) == Forward(kernel, mode, base, start, entries[..i])
      {
        hide ApplyEntry;
        ForwardStops(kernel, mode, base, start, entries, i + 1);
        assert entries[..i + 1][..i] == entries[..i];
        var outcome := ApplyEntry(kernel, mode, base, fs, entries[i]);
        fs := outcome.fs;
        if outcome.result.Err? {
          error := Some(outcome.result.error);
          return;
        }
        appliedEntries := appliedEntries + 1;
        if outcome.result.value && entries[i].DirEntry? {
          createdDirs := createdDirs + {entries[i].path};
        }
      }
      assert entries[..|entries|] == entries;
    }

    /** The loop back over the plan. */
    method FinalizeDirectories(entries: seq<Entry>, createdDirs: set<Path>) returns (finalized: seq<Path>, error: Option<ApplyError>)
      modifies this`fs, this`finalizedDirectories
      ensures Finish(fs, finalized, error) == Backward(kernel, old(fs), entries, createdDirs)
      ensures finalizedDirectories == old(finalizedDirectories) + |finalized|
    {
      finalized, error := [], None;
      ghost var start := fs;
      var i := |entries|;
      assert entries[..i] == entries;
      WithNothingBefore(Backward(kernel, fs, entries, createdDirs));
      while i > 0
        invariant 0 <= i <= |entries| && error.None?
        invariant finalizedDirectories == old(finalizedDirectories) + |finalized|
        invariant Backward(kernel, start, entries, createdDirs) ==
          var rest := Backward(kernel, fs, entries[..i], createdDirs);
          rest.(finalized := finalized + rest.finalized)
      {
        hide FinalizeDir;
        i := i - 1;
        assert entries[..i + 1][..i] == entries[..i];
        if entries[i].DirEntry? && entries[i].path in createdDirs {
          var outcome := FinalizeDir(kernel, fs, entries[i].path, entries[i].mode, entries[i].metadata);
          fs := outcome.fs;
          if outcome.result.Err? {
            error := Some(outcome.result.error);
            assert finalized + [] == finalized;
            return;
          }
          finalized := finalized + [entries[i].path];
          finalizedDirectories := finalizedDirectories + 1;
        }
      }
      assert finalized + [] == finalized;
    }

    method Run(entries: seq<Entry>) returns (finalized: seq<Path>, error: Option<ApplyError>)
      requires base != []
      modifies this
      ensures Finish(fs, finalized, error) == ApplyPlan(kernel, mode, base, old(fs), entries)
      ensures error.None? ==> finalizedDirectories == old(finalizedDirectories) + |finalized|
    {
      hide Forward, Backward;
      match mode {
        case Append =>
        case Strict =>
        case Replace =>
          fs := RemoveAll(fs, base);
        case UnknownMode(_) =>
          return [], Some(ModeInvalid);
      }
      var createdDirs;
      createdDirs, error := CreateEntries(entries);
      if error.Some? {
        return [], error;
      }
      finalized, error := FinalizeDirectories(entries, createdDirs);
    }
  }

  lemma WithNothingBefore(finish: Finish)
    ensures finish.(finalized := [] + finish.finalized) == finish
  {
    assert [] + finish.finalized == finish.finalized;
  }

  /** Once a prefix has failed, the rest of the plan is not looked at. */
  lemma {:induction false} ForwardStops(kernel: Kernel, mode: RunMode, base: Path, fs: Fs, entries: seq<Entry>, k: nat)
    requires k <= |entries|
    ensures var prefix := Forward(kernel, mode, base, fs, entries[..k]);
            prefix.error.Some? ==> Forward(kernel, mode, base, fs, entries) == prefix
    decreases entries
  {
    if k == |entries| {
      assert entries[..k] == entries;
    } else {
      assert entries[..|entries| - 1][..k] == entries[..k];
      ForwardStops(kernel, mode, base, fs, entries[..|entries| - 1], k);
    }
  }
}
