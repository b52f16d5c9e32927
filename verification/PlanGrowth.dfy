/**
  What applying planned entries never does: no name disappears or changes its inode, and an
  existing inode changes only in that a directory's modification time moves.
 */
module PlanGrowth {
  import opened Wrappers
  import opened Paths
  import opened FileSystem
  import opened RealOperations
  import opened PlanSpec
  import opened ContentPatterns
  import opened PlanApply

  /** Names are stored inodes, and no directory has two names. */
  ghost predicate Healthy(fs: Fs) {
    && Stored(fs)
    && forall p, q :: p in fs.tree && q in fs.tree && fs.tree[p] == fs.tree[q] && IsDir(fs, p) ==> p == q
  }

  /** A path below a missing one is missing: parents are there. */
  ghost predicate Rooted(fs: Fs) {
    forall p :: p in fs.tree && p != [] ==> IsDir(fs, Parent(p))
  }

  lemma {:induction false} NothingBelowMissing(fs: Fs, base: Path, p: Path)
    requires Rooted(fs) && base !in fs.tree && base <= p
    ensures p !in fs.tree
    decreases |p|
  {
    if p in fs.tree && p != base {
      NothingBelowMissing(fs, base, Parent(p));
    }
  }

  predicate Aged(before: Inode, after: Inode) {
    after == before || (before.DirInode? && after == DirInode(before.meta.(times := None)))
  }

  ghost predicate Extends(before: Fs, after: Fs) {
    && (forall p :: p in before.tree ==> p in after.tree && after.tree[p] == before.tree[p])
    && (forall i :: i in before.inodes ==> i in after.inodes && Aged(before.inodes[i], after.inodes[i]))
  }

  lemma ExtendsTransitive(a: Fs, b: Fs, c: Fs)
    requires Extends(a, b) && Extends(b, c)
    ensures Extends(a, c)
  {
  }

  /** An existing path is seen unchanged, but for a directory's modification time. */
  lemma ExtendsAt(before: Fs, after: Fs, p: Path)
    requires Extends(before, after) && Exists(before, p)
    ensures Exists(after, p) && Aged(At(before, p), At(after, p))
  {
  }

  /** `after` is `before` with `p` new: nothing else is named, and `p` shows `inode`. */
  ghost predicate Grew(before: Fs, after: Fs, p: Path, inode: Inode) {
    && Healthy(after) && Extends(before, after)
    && p !in before.tree && after.tree.Keys == before.tree.Keys + {p}
    && Exists(after, p) && At(after, p) == inode
    && after.tree[p] !in before.inodes
  }

  lemma TouchAges(fs: Fs, p: Path)
    requires Healthy(fs)
    ensures Healthy(Touch(fs, p)) && Extends(fs, Touch(fs, p)) && Touch(fs, p).tree == fs.tree
    ensures Touch(fs, p).inodes.Keys == fs.inodes.Keys && Touch(fs, p).next == fs.next
    ensures forall i :: i in fs.inodes && !(p in fs.tree && fs.tree[p] == i) ==> Touch(fs, p).inodes[i] == fs.inodes[i]
  {
  }

  lemma AddGrows(fs: Fs, p: Path, inode: Inode)
    requires Healthy(fs) && p !in fs.tree && p != []
    ensures Grew(fs, FileSystem.Add(fs, p, inode), p, inode)
  {
    var placed := Fs(fs.tree[p := fs.next], fs.inodes[fs.next := inode], fs.next + 1);
    PlacedHealthy(fs, placed, p, inode);
    TouchAges(placed, Parent(p));
    TouchedElsewhere(placed, Parent(p), p);
    hide Healthy, Touch;
    ExtendsTransitive(fs, placed, Touch(placed, Parent(p)));
  }

  lemma PlacedHealthy(fs: Fs, placed: Fs, p: Path, inode: Inode)
    requires Healthy(fs) && p !in fs.tree
    requires placed == Fs(fs.tree[p := fs.next], fs.inodes[fs.next := inode], fs.next + 1)
    ensures Healthy(placed) && Extends(fs, placed) && placed.tree.Keys == fs.tree.Keys + {p} && placed.tree[p] !in fs.inodes
  {
  }

  lemma TouchedElsewhere(fs: Fs, d: Path, p: Path)
    requires Healthy(fs) && Exists(fs, p) && d != p
    ensures Exists(Touch(fs, d), p) && At(Touch(fs, d), p) == At(fs, p)
  {
  }

  lemma UpdateNew(before: Fs, fs: Fs, p: Path, inode: Inode, dressed: Inode)
    requires Grew(before, fs, p, inode) && inode.DirInode? == dressed.DirInode?
    ensures Grew(before, Update(fs, p, dressed), p, dressed)
  {
    UpdateHealthy(fs, p, dressed);
    hide Healthy;
  }

  lemma UpdateHealthy(fs: Fs, p: Path, inode: Inode)
    requires Healthy(fs) && Exists(fs, p) && inode.DirInode? == At(fs, p).DirInode?
    ensures Healthy(Update(fs, p, inode))
  {
  }

  lemma LinkGrows(fs: Fs, source: Path, p: Path)
    requires Healthy(fs) && p !in fs.tree && p != [] && Exists(fs, source) && !IsDir(fs, source)
    ensures var after := Link(fs, source, p);
            Healthy(after) && Extends(fs, after) && after.tree.Keys == fs.tree.Keys + {p}
            && after.tree[p] == fs.tree[source]
  {
    var placed := fs.(tree := fs.tree[p := fs.tree[source]]);
    assert Healthy(placed);
    TouchAges(placed, Parent(p));
  }

  lemma {:induction false} MkdirAllGrows(fs: Fs, p: Path, mode: nat)
    requires Healthy(fs) && MkdirAll(fs, p, mode).Some?
    ensures var after := MkdirAll(fs, p, mode).value;
            Healthy(after) && Extends(fs, after) && IsDir(after, p)
            && (forall q :: q in after.tree ==> q in fs.tree || q <= p)
            && (p !in fs.tree ==> At(after, p) == DirInode(NewMeta(mode)) && after.tree[p] !in fs.inodes)
            && (ParentIsDir(fs, p) && p !in fs.tree ==> after.tree.Keys == fs.tree.Keys + {p})
    decreases |p|
  {
    if !IsDir(fs, p) {
      hide Healthy;
      MkdirAllGrows(fs, Parent(p), mode);
      var above := MkdirAll(fs, Parent(p), mode).value;
      assert p !in above.tree by { ExistsIsNamed(fs, p); }
      AddGrows(above, p, DirInode(NewMeta(mode)));
      ExtendsTransitive(fs, above, FileSystem.Add(above, p, DirInode(NewMeta(mode))));
    }
  }

  lemma ExistsIsNamed(fs: Fs, p: Path)
    requires Healthy(fs)
    ensures Exists(fs, p) <==> p in fs.tree
  {
  }

  // ---------------------------------------------------------------- one entry

  /** The metadata a plan asks for, field by field; what it does not ask for is absent. */
  function PlannedMeta(mode: nat, metadata: Metadata): Meta {
    Meta(mode, metadata.owner, metadata.times,
         if metadata.xattrs.Some? then metadata.xattrs.value else map[], if metadata.acl.Some? then metadata.acl.value else [])
  }

  lemma DressedAsPlanned(mode: nat, metadata: Metadata)
    ensures FullyDressed(NewMeta(mode), mode, metadata) == PlannedMeta(mode, metadata)
  {
    assert metadata.xattrs.Some? ==> map[] + metadata.xattrs.value == metadata.xattrs.value;
  }

  /** Links take owner and times only. */
  function LinkMeta(metadata: Metadata): Meta {
    Meta(LINK_MODE, metadata.owner, metadata.times, map[], [])
  }

  /** A file's planned bytes: its data, or its content byte for byte. */
  ghost predicate HoldsPlanned(kernel: Kernel, e: Entry, data: seq<Byte>)
    requires e.FileEntry?
  {
    match e.content
    case None => data == e.data
    case Some(content) => ValidContent(content) && data == Bytes(kernel.random, content)
  }

  /** What a created entry looks like before directories are finalised. */
  ghost predicate Shows(kernel: Kernel, fs: Fs, e: Entry) {
    && Exists(fs, e.path)
    && match e
       case DirEntry(p, mode, _) => At(fs, p) == DirInode(NewMeta(mode))
       case FileEntry(p, mode, _, _, metadata) =>
         At(fs, p).FileInode? && At(fs, p).meta == PlannedMeta(mode, metadata) && HoldsPlanned(kernel, e, At(fs, p).data)
       case SymlinkEntry(p, target, metadata) => At(fs, p) == SymlinkInode(LinkMeta(metadata), target)
       case HardlinkEntry(p, source) => source in fs.tree && fs.tree[p] == fs.tree[source]
       case SpecialEntry(p, mode, kind, major, minor, metadata) =>
         if IsDevice(kind) then At(fs, p) == SpecialInode(PlannedMeta(mode, metadata), kind, major, minor)
         else At(fs, p) == SpecialInode(PlannedMeta(mode, metadata), kind, 0, 0)
  }

  /** Growing keeps what created entries look like. */
  lemma ShowsKept(kernel: Kernel, before: Fs, after: Fs, e: Entry)
    requires Shows(kernel, before, e) && Extends(before, after)
    ensures Shows(kernel, after, e)
  {
    ExtendsAt(before, after, e.path);
  }

  /** What one step does, whatever its outcome. */
  ghost predicate StepGrows(kernel: Kernel, before: Fs, outcome: Outcome, e: Entry) {
    && Healthy(outcome.fs) && Extends(before, outcome.fs)
    && (forall q :: q in outcome.fs.tree ==> q in before.tree || q <= e.path)
    && (outcome.result.Ok? ==> Exists(outcome.fs, e.path))
    && (outcome.result.Ok? ==> (outcome.result.value <==> e.path !in before.tree))
    && (outcome.result == Ok(true) ==> Shows(kernel, outcome.fs, e))
    && (outcome.result == Ok(false) ==> outcome.fs == before)
    && (ParentIsDir(before, e.path) && outcome.result == Ok(true) ==> outcome.fs.tree.Keys == before.tree.Keys + {e.path})
    && (outcome.result == Ok(true) && !e.HardlinkEntry? ==> outcome.fs.tree[e.path] !in before.inodes)
  }

  lemma MetadataGrows(kernel: Kernel, before: Fs, fs: Fs, p: Path, inode: Inode, mode: nat, metadata: Metadata)
    requires Grew(before, fs, p, inode) && Exists(fs, p)
    ensures var outcome := ApplyMetadata(kernel, fs, p, mode, metadata);
            (exists dressed :: Grew(before, outcome.fs, p, dressed))
            && (outcome.result.Ok? ==> outcome.result.value)
            && (outcome.result.Ok? ==> Grew(before, outcome.fs, p, WithMeta(inode, FullyDressed(inode.meta, mode, metadata))))
  {
    var dressed := WithMeta(inode, Dressed(inode.meta, mode, metadata));
    var full := WithMeta(inode, FullyDressed(inode.meta, mode, metadata));
    assert Exists(fs, p) && At(fs, p) == inode;
    UpdateNew(before, fs, p, inode, dressed);
    UpdateNew(before, fs, p, inode, full);
    hide Grew;
    var outcome := ApplyMetadata(kernel, fs, p, mode, metadata);
    if NegativeOwner(metadata) {
      assert Grew(before, outcome.fs, p, inode);
    } else if RefusesACL(kernel, mode, inode.DirInode?, metadata) {
      assert Grew(before, outcome.fs, p, dressed);
    } else {
      assert Grew(before, outcome.fs, p, full);
    }
  }

  lemma CreateFileGrows(kernel: Kernel, fs: Fs, e: Entry)
    requires Healthy(fs) && e.path !in fs.tree && e.FileEntry?
    ensures StepGrows(kernel, fs, Create(kernel, fs, e), e)
  {
    if ParentIsDir(fs, e.path) {
      var bytes := if FileBytes(kernel, e).Some? then FileBytes(kernel, e).value else [];
      var inode := FileInode(NewMeta(e.mode), bytes);
      AddGrows(fs, e.path, inode);
      MetadataGrows(kernel, fs, FileSystem.Add(fs, e.path, inode), e.path, inode, e.mode, e.metadata);
      DressedAsPlanned(e.mode, e.metadata);
      hide FileSystem.Add, ApplyMetadata, Healthy, Extends, FullyDressed, PlannedMeta, Bytes, ValidContent;
    }
  }

  lemma CreateSymlinkGrows(kernel: Kernel, fs: Fs, e: Entry)
    requires Healthy(fs) && e.path !in fs.tree && e.SymlinkEntry?
    ensures StepGrows(kernel, fs, Create(kernel, fs, e), e)
  {
    if ParentIsDir(fs, e.path) {
      var inode := SymlinkInode(NewMeta(LINK_MODE), e.target);
      AddGrows(fs, e.path, inode);
      UpdateNew(fs, FileSystem.Add(fs, e.path, inode), e.path, inode, SymlinkInode(LinkMeta(e.metadata), e.target));
      hide FileSystem.Add, Healthy, Extends;
    }
  }

  lemma CreateSpecialGrows(kernel: Kernel, fs: Fs, e: Entry)
    requires Healthy(fs) && e.path !in fs.tree && e.SpecialEntry?
    ensures StepGrows(kernel, fs, Create(kernel, fs, e), e)
  {
    if ParentIsDir(fs, e.path) {
      var inode := SpecialFor(e.kind, e.mode, e.major, e.minor);
      AddGrows(fs, e.path, inode);
      MetadataGrows(kernel, fs, FileSystem.Add(fs, e.path, inode), e.path, inode, e.mode, e.metadata);
      DressedAsPlanned(e.mode, e.metadata);
      hide FileSystem.Add, ApplyMetadata, Healthy, Extends, FullyDressed, PlannedMeta, Bytes, ValidContent;
    }
  }

  lemma CreateDirGrows(kernel: Kernel, fs: Fs, e: Entry)
    requires Healthy(fs) && e.path !in fs.tree && e.DirEntry?
    ensures StepGrows(kernel, fs, Create(kernel, fs, e), e)
  {
    if MkdirAll(fs, e.path, e.mode).Some? {
      MkdirAllGrows(fs, e.path, e.mode);
    }
  }

  lemma CreateLinkGrows(kernel: Kernel, fs: Fs, e: Entry)
    requires Healthy(fs) && e.path !in fs.tree && e.HardlinkEntry?
    ensures StepGrows(kernel, fs, Create(kernel, fs, e), e)
  {
    if Create(kernel, fs, e).result.Ok? {
      LinkGrows(fs, e.source, e.path);
    }
  }

  /** applyPlannedEntry never takes anything away, and what it creates is what was planned. */
  lemma ApplyEntryGrows(kernel: Kernel, mode: RunMode, base: Path, fs: Fs, e: Entry)
    requires Healthy(fs)
    ensures StepGrows(kernel, fs, ApplyEntry(kernel, mode, base, fs, e), e)
  {
    if !Exists(fs, e.path) && !Blocked(fs, e.path) {
      match e
      case DirEntry(_, _, _) => CreateDirGrows(kernel, fs, e);
      case FileEntry(_, _, _, _, _) => CreateFileGrows(kernel, fs, e);
      case SymlinkEntry(_, _, _) => CreateSymlinkGrows(kernel, fs, e);
      case HardlinkEntry(_, _) => CreateLinkGrows(kernel, fs, e);
      case SpecialEntry(_, _, _, _, _, _) => CreateSpecialGrows(kernel, fs, e);
    }
  }
}
