/**
  Replace mode forgets what the base held. Two filesystems are alike when they have the same
  names, each name looks the same in both, and the same names share inodes; inode numbers may
  differ. The modification time of one directory, the base's parent, is left open: clearing the
  base touches it only when there is something to clear.
 */
module PlanReplace {
  import opened Wrappers
  import opened Paths
  import opened FileSystem
  import opened RealOperations
  import opened PlanSpec
  import opened PlanApply
  import opened PlanGrowth

  predicate LookAlike(x: Inode, y: Inode, timesOpen: bool) {
    x == y || (timesOpen && x.DirInode? && y.DirInode? && Timeless(x) == Timeless(y))
  }

  /** One path seen from both sides. */
  predicate AlikeAt(f: Fs, g: Fs, loose: Path, p: Path) {
    && (Exists(f, p) <==> Exists(g, p))
    && (Exists(f, p) ==> LookAlike(At(f, p), At(g, p), p == loose))
  }

  ghost predicate SameSharing(f: Fs, g: Fs) {
    forall p, q :: p in f.tree && q in f.tree && p in g.tree && q in g.tree ==>
      (f.tree[p] == f.tree[q] <==> g.tree[p] == g.tree[q])
  }

  ghost predicate Alike(f: Fs, g: Fs, loose: Path) {
    && Healthy(f) && Healthy(g) && f.tree.Keys == g.tree.Keys
    && (forall p :: p in f.tree ==> AlikeAt(f, g, loose, p))
    && SameSharing(f, g)
  }

  lemma AlikeKinds(f: Fs, g: Fs, loose: Path, p: Path)
    requires Alike(f, g, loose)
    ensures AlikeAt(f, g, loose, p)
    ensures IsDir(f, p) <==> IsDir(g, p)
    ensures p in f.tree <==> p in g.tree
    ensures Exists(f, p) <==> p in f.tree
  {
  }

  // ---------------------------------------------------------------- changes keep filesystems alike

  lemma AlikeUpdate(f: Fs, g: Fs, loose: Path, p: Path, x: Inode, y: Inode)
    requires Alike(f, g, loose) && p in f.tree
    requires LookAlike(x, y, p == loose)
    requires x.DirInode? == IsDir(f, p)
    ensures Alike(Update(f, p, x), Update(g, p, y), loose)
  {
    UpdateHealthy(f, p, x);
    UpdateHealthy(g, p, y);
    var f', g' := Update(f, p, x), Update(g, p, y);
    forall q | q in f'.tree ensures AlikeAt(f', g', loose, q) {
      assert AlikeAt(f, g, loose, q);
    }
  }

  lemma AlikeTouch(f: Fs, g: Fs, loose: Path, d: Path)
    requires Alike(f, g, loose)
    ensures Alike(Touch(f, d), Touch(g, d), loose)
  {
    AlikeKinds(f, g, loose, d);
    if IsDir(f, d) {
      var x, y := DirInode(At(f, d).meta.(times := None)), DirInode(At(g, d).meta.(times := None));
      hide Alike, Update;
      AlikeUpdate(f, g, loose, d, x, y);
    }
  }

  lemma AlikePlace(f: Fs, g: Fs, loose: Path, p: Path, inode: Inode)
    requires Alike(f, g, loose) && p !in f.tree
    ensures Alike(Fs(f.tree[p := f.next], f.inodes[f.next := inode], f.next + 1),
                  Fs(g.tree[p := g.next], g.inodes[g.next := inode], g.next + 1), loose)
  {
    var f', g' := Fs(f.tree[p := f.next], f.inodes[f.next := inode], f.next + 1),
                  Fs(g.tree[p := g.next], g.inodes[g.next := inode], g.next + 1);
    PlacedHealthy(f, f', p, inode);
    PlacedHealthy(g, g', p, inode);
    PlacedSharing(f, g, f', g', p);
    forall q | q in f'.tree ensures AlikeAt(f', g', loose, q) {
      if q != p { assert AlikeAt(f, g, loose, q); }
    }
  }

  lemma PlacedSharing(f: Fs, g: Fs, f': Fs, g': Fs, p: Path)
    requires Healthy(f) && Healthy(g) && f.tree.Keys == g.tree.Keys && SameSharing(f, g)
    requires f'.tree == f.tree[p := f.next] && g'.tree == g.tree[p := g.next]
    ensures SameSharing(f', g')
  {
  }

  lemma AlikeAdd(f: Fs, g: Fs, loose: Path, p: Path, inode: Inode)
    requires Alike(f, g, loose) && p !in f.tree && p != []
    ensures Alike(FileSystem.Add(f, p, inode), FileSystem.Add(g, p, inode), loose)
  {
    hide Alike, Touch;
    AlikePlace(f, g, loose, p, inode);
    AlikeTouch(Fs(f.tree[p := f.next], f.inodes[f.next := inode], f.next + 1),
               Fs(g.tree[p := g.next], g.inodes[g.next := inode], g.next + 1), loose, Parent(p));
  }

  lemma AlikeNewName(f: Fs, g: Fs, loose: Path, source: Path, p: Path)
    requires Alike(f, g, loose) && p !in f.tree && Exists(f, source) && !IsDir(f, source)
    ensures source in g.tree
    ensures Alike(f.(tree := f.tree[p := f.tree[source]]), g.(tree := g.tree[p := g.tree[source]]), loose)
  {
    AlikeKinds(f, g, loose, source);
    var f', g' := f.(tree := f.tree[p := f.tree[source]]), g.(tree := g.tree[p := g.tree[source]]);
    LinkedHealthy(f, source, p);
    LinkedHealthy(g, source, p);
    forall q | q in f'.tree ensures AlikeAt(f', g', loose, q) {
      assert AlikeAt(f, g, loose, if q == p then source else q);
    }
  }

  lemma LinkedHealthy(fs: Fs, source: Path, p: Path)
    requires Healthy(fs) && p !in fs.tree && Exists(fs, source) && !IsDir(fs, source)
    ensures Healthy(fs.(tree := fs.tree[p := fs.tree[source]]))
  {
  }

  lemma AlikeLink(f: Fs, g: Fs, loose: Path, source: Path, p: Path)
    requires Alike(f, g, loose) && p !in f.tree && p != [] && Exists(f, source) && !IsDir(f, source)
    ensures source in g.tree && Alike(Link(f, source, p), Link(g, source, p), loose)
  {
    hide Alike, Touch;
    AlikeNewName(f, g, loose, source, p);
    AlikeTouch(f.(tree := f.tree[p := f.tree[source]]), g.(tree := g.tree[p := g.tree[source]]), loose, Parent(p));
  }

  // ---------------------------------------------------------------- steps

  lemma {:induction false} AlikeBlocked(f: Fs, g: Fs, loose: Path, p: Path)
    requires Alike(f, g, loose)
    ensures Blocked(f, p) <==> Blocked(g, p)
    decreases |p|
  {
    if p != [] {
      AlikeKinds(f, g, loose, Parent(p));
      hide Alike;
      AlikeBlocked(f, g, loose, Parent(p));
    }
  }

  lemma {:induction false} AlikeMkdirAll(f: Fs, g: Fs, loose: Path, p: Path, mode: nat)
    requires Alike(f, g, loose)
    ensures var a, b := MkdirAll(f, p, mode), MkdirAll(g, p, mode);
            a.Some? == b.Some? && (a.Some? ==> Alike(a.value, b.value, loose))
    decreases |p|
  {
    AlikeKinds(f, g, loose, p);
    if !IsDir(f, p) && !Exists(f, p) && p != [] {
      hide Alike;
      AlikeMkdirAll(f, g, loose, Parent(p), mode);
      var a, b := MkdirAll(f, Parent(p), mode), MkdirAll(g, Parent(p), mode);
      if a.Some? {
        assert p !in a.value.tree by { NotMadeAbove(f, g, loose, p, mode); }
        AlikeAdd(a.value, b.value, loose, p, DirInode(NewMeta(mode)));
      }
    }
  }

  lemma NotMadeAbove(f: Fs, g: Fs, loose: Path, p: Path, mode: nat)
    requires Alike(f, g, loose) && p != [] && !Exists(f, p) && MkdirAll(f, Parent(p), mode).Some?
    ensures p !in MkdirAll(f, Parent(p), mode).value.tree
  {
    MkdirAllGrows(f, Parent(p), mode);
  }

  ghost predicate AlikeOutcomes(a: Outcome, b: Outcome, loose: Path) {
    a.result == b.result && Alike(a.fs, b.fs, loose)
  }

  lemma AlikeMetadata(kernel: Kernel, f: Fs, g: Fs, loose: Path, p: Path, mode: nat, metadata: Metadata)
    requires Alike(f, g, loose) && Exists(f, p)
    ensures Exists(g, p)
    ensures AlikeOutcomes(ApplyMetadata(kernel, f, p, mode, metadata), ApplyMetadata(kernel, g, p, mode, metadata), loose)
  {
    AlikeKinds(f, g, loose, p);
    var x, y := At(f, p), At(g, p);
    hide Alike, Update;
    AlikeUpdate(f, g, loose, p, WithMeta(x, Dressed(x.meta, mode, metadata)), WithMeta(y, Dressed(y.meta, mode, metadata)));
    AlikeUpdate(f, g, loose, p, WithMeta(x, FullyDressed(x.meta, mode, metadata)), WithMeta(y, FullyDressed(y.meta, mode, metadata)));
  }

  lemma AlikeLinkMetadata(f: Fs, g: Fs, loose: Path, p: Path, metadata: Metadata)
    requires Alike(f, g, loose) && Exists(f, p) && !IsDir(f, p)
    ensures Exists(g, p)
    ensures AlikeOutcomes(ApplyLinkMetadata(f, p, metadata), ApplyLinkMetadata(g, p, metadata), loose)
  {
    AlikeKinds(f, g, loose, p);
    var x := At(f, p);
    hide Alike, Update;
    var meta := x.meta.(owner := OrElse(metadata.owner, x.meta.owner), times := OrElse(metadata.times, x.meta.times));
    AlikeUpdate(f, g, loose, p, WithMeta(x, meta), WithMeta(x, meta));
  }

  lemma NewNotDir(f: Fs, p: Path, inode: Inode)
    requires Healthy(f) && p !in f.tree && p != []
    ensures Exists(FileSystem.Add(f, p, inode), p) && (IsDir(FileSystem.Add(f, p, inode), p) <==> inode.DirInode?)
  {
    AddGrows(f, p, inode);
  }

  lemma AlikeCreateFile(kernel: Kernel, f: Fs, g: Fs, loose: Path, e: Entry)
    requires Alike(f, g, loose) && e.path !in f.tree && e.path != [] && e.FileEntry?
    ensures AlikeOutcomes(Create(kernel, f, e), Create(kernel, g, e), loose)
  {
    AlikeKinds(f, g, loose, Parent(e.path));
    var bytes := if FileBytes(kernel, e).Some? then FileBytes(kernel, e).value else [];
    var inode := FileInode(NewMeta(e.mode), bytes);
    NewNotDir(f, e.path, inode);
    hide Alike, FileSystem.Add, ApplyMetadata;
    AlikeAdd(f, g, loose, e.path, inode);
    AlikeMetadata(kernel, FileSystem.Add(f, e.path, inode), FileSystem.Add(g, e.path, inode), loose, e.path, e.mode, e.metadata);
  }

  lemma AlikeCreateSpecial(kernel: Kernel, f: Fs, g: Fs, loose: Path, e: Entry)
    requires Alike(f, g, loose) && e.path !in f.tree && e.path != [] && e.SpecialEntry?
    ensures AlikeOutcomes(Create(kernel, f, e), Create(kernel, g, e), loose)
  {
    AlikeKinds(f, g, loose, Parent(e.path));
    var inode := SpecialFor(e.kind, e.mode, e.major, e.minor);
    NewNotDir(f, e.path, inode);
    hide Alike, FileSystem.Add, ApplyMetadata;
    AlikeAdd(f, g, loose, e.path, inode);
    AlikeMetadata(kernel, FileSystem.Add(f, e.path, inode), FileSystem.Add(g, e.path, inode), loose, e.path, e.mode, e.metadata);
  }

  lemma AlikeCreateSymlink(kernel: Kernel, f: Fs, g: Fs, loose: Path, e: Entry)
    requires Alike(f, g, loose) && e.path !in f.tree && e.path != [] && e.SymlinkEntry?
    ensures AlikeOutcomes(Create(kernel, f, e), Create(kernel, g, e), loose)
  {
    AlikeKinds(f, g, loose, Parent(e.path));
    var inode := SymlinkInode(NewMeta(LINK_MODE), e.target);
    NewNotDir(f, e.path, inode);
    hide Alike, FileSystem.Add, ApplyLinkMetadata;
    AlikeAdd(f, g, loose, e.path, inode);
    AlikeLinkMetadata(FileSystem.Add(f, e.path, inode), FileSystem.Add(g, e.path, inode), loose, e.path, e.metadata);
  }

  lemma AlikeCreateOther(kernel: Kernel, f: Fs, g: Fs, loose: Path, e: Entry)
    requires Alike(f, g, loose) && e.path !in f.tree && (e.DirEntry? || e.HardlinkEntry?)
    ensures AlikeOutcomes(Create(kernel, f, e), Create(kernel, g, e), loose)
  {
    if e.DirEntry? {
      AlikeMkdirAll(f, g, loose, e.path, e.mode);
    } else {
      AlikeKinds(f, g, loose, e.source);
      if e.path != [] {
        AlikeKinds(f, g, loose, Parent(e.path));
        hide Alike, Link;
        if ParentIsDir(f, e.path) && Exists(f, e.source) && !IsDir(f, e.source) {
          AlikeLink(f, g, loose, e.source, e.path);
        }
      }
    }
  }

  lemma AlikeCreate(kernel: Kernel, f: Fs, g: Fs, loose: Path, e: Entry)
    requires Alike(f, g, loose) && e.path !in f.tree
    ensures AlikeOutcomes(Create(kernel, f, e), Create(kernel, g, e), loose)
  {
    hide Alike;
    if e.DirEntry? || e.HardlinkEntry? {
      AlikeCreateOther(kernel, f, g, loose, e);
    } else if e.path != [] {
      match e
      case FileEntry(_, _, _, _, _) => AlikeCreateFile(kernel, f, g, loose, e);
      case SymlinkEntry(_, _, _) => AlikeCreateSymlink(kernel, f, g, loose, e);
      case SpecialEntry(_, _, _, _, _, _) => AlikeCreateSpecial(kernel, f, g, loose, e);
    }
  }

  /** An entry meets the same fate in filesystems that are alike. */
  lemma AlikeEntry(kernel: Kernel, mode: RunMode, base: Path, f: Fs, g: Fs, loose: Path, e: Entry)
    requires Alike(f, g, loose)
    ensures AlikeOutcomes(ApplyEntry(kernel, mode, base, f, e), ApplyEntry(kernel, mode, base, g, e), loose)
  {
    AlikeKinds(f, g, loose, e.path);
    if !Exists(f, e.path) {
      AlikeBlocked(f, g, loose, e.path);
      hide Alike, Create;
      AlikeCreate(kernel, f, g, loose, e);
    }
  }

  lemma {:induction false} AlikeForward(kernel: Kernel, mode: RunMode, base: Path, f: Fs, g: Fs, loose: Path, entries: seq<Entry>)
    requires Alike(f, g, loose)
    ensures var a, b := Forward(kernel, mode, base, f, entries), Forward(kernel, mode, base, g, entries);
            a.created == b.created && a.error == b.error && Alike(a.fs, b.fs, loose)
    decreases entries
  {
    if entries != [] {
      hide Alike, ApplyEntry;
      AlikeForward(kernel, mode, base, f, g, loose, entries[..|entries| - 1]);
      var a, b := Forward(kernel, mode, base, f, entries[..|entries| - 1]), Forward(kernel, mode, base, g, entries[..|entries| - 1]);
      AlikeEntry(kernel, mode, base, a.fs, b.fs, loose, entries[|entries| - 1]);
    }
  }

  lemma AlikeFinalize(kernel: Kernel, f: Fs, g: Fs, loose: Path, p: Path, mode: nat, metadata: Metadata)
    requires Alike(f, g, loose)
    ensures AlikeOutcomes(FinalizeDir(kernel, f, p, mode, metadata), FinalizeDir(kernel, g, p, mode, metadata), loose)
  {
    AlikeKinds(f, g, loose, p);
    if Exists(f, p) {
      AlikeMetadata(kernel, f, g, loose, p, mode, metadata);
    }
  }

  lemma {:induction false} AlikeBackward(kernel: Kernel, f: Fs, g: Fs, loose: Path, entries: seq<Entry>, created: set<Path>)
    requires Alike(f, g, loose)
    ensures var a, b := Backward(kernel, f, entries, created), Backward(kernel, g, entries, created);
            a.finalized == b.finalized && a.error == b.error && Alike(a.fs, b.fs, loose)
    decreases entries
  {
    if entries != [] {
      hide Alike, FinalizeDir;
      var front, last := entries[..|entries| - 1], entries[|entries| - 1];
      if last.DirEntry? && last.path in created {
        AlikeFinalize(kernel, f, g, loose, last.path, last.mode, last.metadata);
        var a, b := FinalizeDir(kernel, f, last.path, last.mode, last.metadata), FinalizeDir(kernel, g, last.path, last.mode, last.metadata);
        AlikeBackward(kernel, a.fs, b.fs, loose, front, created);
      } else {
        AlikeBackward(kernel, f, g, loose, front, created);
      }
    }
  }

  // ---------------------------------------------------------------- clearing the base

  /** The same world but for what is at and below the base. */
  ghost predicate SameOutside(f: Fs, g: Fs, base: Path)
    requires base != []
  {
    && (forall p :: !(base <= p) ==> AlikeAt(f, g, Parent(base), p))
    && (forall p, q :: p in f.tree && q in f.tree && p in g.tree && q in g.tree && !(base <= p) && !(base <= q) ==>
          (f.tree[p] == f.tree[q] <==> g.tree[p] == g.tree[q]))
  }

  function Pruned(fs: Fs, base: Path): Fs {
    fs.(tree := map p | p in fs.tree && !(base <= p) :: fs.tree[p])
  }

  /** RemoveAll leaves the rest of the tree, up to the parent's modification time. */
  lemma RemoveAllPrunes(fs: Fs, base: Path)
    requires Healthy(fs) && Rooted(fs) && base != []
    ensures Healthy(RemoveAll(fs, base)) && RemoveAll(fs, base).tree == Pruned(fs, base).tree
    ensures forall p :: p in fs.tree && !(base <= p) ==> AlikeAt(fs, RemoveAll(fs, base), Parent(base), p)
  {
    if Exists(fs, base) {
      PrunedHealthy(fs, base);
      TouchAges(Pruned(fs, base), Parent(base));
      hide Healthy, Touch;
      forall p | p in fs.tree && !(base <= p) ensures AlikeAt(fs, RemoveAll(fs, base), Parent(base), p) {
        PrunedAlikeAt(fs, base, p);
      }
    } else {
      forall p | p in fs.tree ensures !(base <= p) {
        if base <= p { NothingBelowMissing(fs, base, p); }
      }
      assert Pruned(fs, base).tree == fs.tree;
    }
  }

  lemma PrunedHealthy(fs: Fs, base: Path)
    requires Healthy(fs)
    ensures Healthy(Pruned(fs, base))
  {
  }

  lemma PrunedAlikeAt(fs: Fs, base: Path, p: Path)
    requires Healthy(fs) && base != [] && p in fs.tree && !(base <= p)
    ensures AlikeAt(fs, Touch(Pruned(fs, base), Parent(base)), Parent(base), p)
  {
    var pruned := Pruned(fs, base);
    PrunedHealthy(fs, base);
    assert Exists(pruned, p) && At(pruned, p) == At(fs, p);
    if p != Parent(base) {
      TouchedElsewhere(pruned, Parent(base), p);
    }
  }

  lemma AlikeAtChain(f: Fs, f': Fs, g: Fs, g': Fs, loose: Path, p: Path)
    requires AlikeAt(f, f', loose, p) && AlikeAt(f, g, loose, p) && AlikeAt(g, g', loose, p)
    ensures AlikeAt(f', g', loose, p)
  {
  }

  lemma ClearedAlike(f: Fs, g: Fs, base: Path)
    requires Healthy(f) && Healthy(g) && Rooted(f) && Rooted(g) && base != [] && SameOutside(f, g, base)
    ensures Alike(RemoveAll(f, base), RemoveAll(g, base), Parent(base))
  {
    RemoveAllPrunes(f, base);
    RemoveAllPrunes(g, base);
    var f', g' := RemoveAll(f, base), RemoveAll(g, base);
    hide RemoveAll, Healthy, LookAlike;
    assert SameSharing(f', g');
    forall p ensures p in f'.tree <==> p in g'.tree {
      if !(base <= p) {
        assert AlikeAt(f, g, Parent(base), p);
        ExistsIsNamed(f, p);
        ExistsIsNamed(g, p);
      }
    }
    forall p | p in f'.tree ensures AlikeAt(f', g', Parent(base), p) {
      assert p in g'.tree;
      AlikeAtChain(f, f', g, g', Parent(base), p);
    }
  }

  /**
    A replace run does not depend on what the base held before: same verdict, same finalised
    directories, and filesystems alike in every name, every byte and every shared inode.
   */
  lemma ReplaceForgetsBase(kernel: Kernel, base: Path, f: Fs, g: Fs, entries: seq<Entry>)
    requires Healthy(f) && Healthy(g) && Rooted(f) && Rooted(g) && base != [] && SameOutside(f, g, base)
    ensures var a, b := ApplyPlan(kernel, Replace, base, f, entries), ApplyPlan(kernel, Replace, base, g, entries);
            a.error == b.error && a.finalized == b.finalized && Alike(a.fs, b.fs, Parent(base))
  {
    ClearedAlike(f, g, base);
    var f', g' := RemoveAll(f, base), RemoveAll(g, base);
    hide RemoveAll, Alike;
    AlikeForward(kernel, Replace, base, f', g', Parent(base), entries);
    var a, b := Forward(kernel, Replace, base, f', entries), Forward(kernel, Replace, base, g', entries);
    AlikeBackward(kernel, a.fs, b.fs, Parent(base), entries, a.created);
  }
}
