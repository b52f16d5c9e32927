/**
  What an operation of mutate.go leaves behind, said on names, bytes and metadata alone: nothing
  here mentions how the steps of `RealOperations` are computed.
 */
module RealEffects {
  import opened Wrappers
  import opened Paths
  import opened Operations
  import opened FileSystem

  /** Every name has an inode, and every name but the root's stands in a directory. */
  ghost predicate Sound(fs: Fs) {
    && (forall p :: p in fs.tree ==> fs.tree[p] in fs.inodes)
    && (forall i :: i in fs.inodes ==> i < fs.next)
    && (forall p :: p in fs.tree && p != [] ==> IsDir(fs, Parent(p)))
  }

  /** The same inode, but for the times of a directory. */
  predicate Kept(a: Inode, b: Inode) {
    b == a || (a.DirInode? && b.DirInode? && b.meta == a.meta.(times := b.meta.times))
  }

  /** Names that stay name the inodes they named, and those are as they were. */
  ghost predicate NamesKept(before: Fs, after: Fs) {
    forall q :: q in before.tree && q in after.tree ==> after.tree[q] == before.tree[q] && KeptAt(before, q, after, q)
  }

  predicate KeptAt(before: Fs, p: Path, after: Fs, q: Path) {
    p in before.tree && q in after.tree && Exists(before, p) && Exists(after, q) && Kept(At(before, p), At(after, q))
  }

  /** A new name for an inode no other name shares. */
  ghost predicate Created(before: Fs, after: Fs, p: Path) {
    && p !in before.tree && after.tree.Keys == before.tree.Keys + {p} && Exists(after, p)
    && NamesKept(before, after)
    && forall q :: q in before.tree ==> after.tree[q] != after.tree[p]
  }

  /** The inode of `p` may have changed, and nothing else has. */
  ghost predicate ChangedOnly(before: Fs, after: Fs, p: Path) {
    && Exists(before, p) && Exists(after, p) && after.tree == before.tree && after.inodes.Keys == before.inodes.Keys
    && forall i :: i in before.inodes && i != before.tree[p] ==> after.inodes[i] == before.inodes[i]
  }

  /** The bytes of a file changed, and of its metadata only the times. */
  ghost predicate DataChanged(before: Fs, after: Fs, p: Path) {
    && ChangedOnly(before, after, p) && At(before, p).FileInode? && At(after, p).FileInode?
    && At(after, p).meta == At(before, p).meta.(times := At(after, p).meta.times)
  }

  /** The inode is as before but for its metadata. */
  ghost predicate MetaChanged(before: Fs, after: Fs, p: Path, meta: Meta) {
    && ChangedOnly(before, after, p) && At(after, p).meta == meta
    && match At(before, p)
       case DirInode(_) => At(after, p).DirInode?
       case FileInode(_, data) => At(after, p).FileInode? && At(after, p).data == data
       case SymlinkInode(_, target) => At(after, p).SymlinkInode? && At(after, p).target == target
       case SpecialInode(_, kind, major, minor) =>
         At(after, p).SpecialInode? && At(after, p).kind == kind && At(after, p).major == major && At(after, p).minor == minor
  }

  /** A newly made inode: the mode it was made with, and nothing else yet. */
  predicate Fresh(meta: Meta, mode: nat) {
    meta.mode == mode && meta.owner.None? && meta.times.None? && meta.xattrs == map[] && meta.acl == []
  }

  /** Every name goes where the rename takes it, and nothing else comes. */
  ghost predicate Renamed(before: Fs, after: Fs, source: Path, destination: Path) {
    && (forall q :: q in after.tree <==>
          if destination <= q then source + q[|destination|..] in before.tree else q in before.tree && !(source <= q))
    && (forall q :: q in after.tree ==> MovedKept(before, after, if destination <= q then source + q[|destination|..] else q, q))
  }

  predicate MovedKept(before: Fs, after: Fs, p: Path, q: Path) {
    p in before.tree && q in after.tree && after.tree[q] == before.tree[p] && KeptAt(before, p, after, q)
  }

  const SYMLINK_MODE := 0x1ff

  /** What an accepted operation has done. */
  ghost predicate Effect(before: Fs, op: NormalOperation, after: Fs) {
    match op
    case CreateFile(p, mode, data) =>
      Created(before, after, p) && At(after, p).FileInode? && Fresh(At(after, p).meta, mode) && At(after, p).data == data
    case CreateDir(p, mode) =>
      Created(before, after, p) && At(after, p).DirInode? && Fresh(At(after, p).meta, mode)
    case CreateSymlink(p, target) =>
      Created(before, after, p) && At(after, p).SymlinkInode? && Fresh(At(after, p).meta, SYMLINK_MODE) && At(after, p).target == target
    case CreateHardlink(p, source) =>
      && source in before.tree && p !in before.tree && after.tree.Keys == before.tree.Keys + {p}
      && after.tree[p] == before.tree[source] && NamesKept(before, after)
    case Delete(p) =>
      p in before.tree && (forall q :: q in after.tree <==> q in before.tree && !(p <= q)) && NamesKept(before, after)
    case Rename(source, destination) => source in before.tree && Renamed(before, after, source, destination)
    case Chmod(p, mode) => Exists(before, p) && MetaChanged(before, after, p, At(before, p).meta.(mode := mode))
    case Chown(p, uid, gid) => Exists(before, p) && MetaChanged(before, after, p, At(before, p).meta.(owner := Some((uid, gid))))
    case Truncate(p, size) =>
      && DataChanged(before, after, p) && |At(after, p).data| == size
      && (forall k :: 0 <= k < size ==> At(after, p).data[k] == if k < |At(before, p).data| then At(before, p).data[k] else 0)
    case Append(p, data) =>
      && DataChanged(before, after, p) && |At(after, p).data| == |At(before, p).data| + |data|
      && (forall k :: 0 <= k < |At(before, p).data| ==> At(after, p).data[k] == At(before, p).data[k])
      && (forall k :: 0 <= k < |data| ==> At(after, p).data[|At(before, p).data| + k] == data[k])
    case OverwriteRange(p, offset, data) =>
      && DataChanged(before, after, p) && 0 <= offset <= |At(before, p).data|
      && |At(after, p).data| == (if offset + |data| > |At(before, p).data| then offset + |data| else |At(before, p).data|)
      && (forall k :: 0 <= k < |At(after, p).data| ==>
            At(after, p).data[k] == if offset <= k < offset + |data| then data[k - offset] else At(before, p).data[k])
    case SetXAttr(p, name, value) =>
      && Exists(before, p) && Exists(after, p)
      && MetaChanged(before, after, p, At(before, p).meta.(xattrs := At(after, p).meta.xattrs))
      && AttributeSet(At(before, p).meta.xattrs, At(after, p).meta.xattrs, name, value)
    case RemoveXAttr(p, name) =>
      && Exists(before, p) && Exists(after, p)
      && MetaChanged(before, after, p, At(before, p).meta.(xattrs := At(after, p).meta.xattrs))
      && AttributeRemoved(At(before, p).meta.xattrs, At(after, p).meta.xattrs, name)
    case UnknownKind(_, _) => false
  }

  predicate AttributeSet(before: map<string, seq<Byte>>, after: map<string, seq<Byte>>, name: string, value: seq<Byte>) {
    && after.Keys == before.Keys + {name} && after[name] == value
    && forall other :: other in before && other != name ==> after[other] == before[other]
  }

  predicate AttributeRemoved(before: map<string, seq<Byte>>, after: map<string, seq<Byte>>, name: string) {
    && name in before && after.Keys == before.Keys - {name}
    && forall other :: other in after ==> after[other] == before[other]
  }
}
