/**
  The real side: a filesystem with paths naming inodes. Hard links are paths that name the same
  inode. Permissions, umask and special mode bits are not modelled. `None` for times stands for
  whatever the clock gave.
 */
module FileSystem {
  import opened Wrappers
  import opened Paths

  datatype SpecialType = FIFO | Socket | CharDevice | BlockDevice

  predicate IsDevice(kind: SpecialType) {
    kind.CharDevice? || kind.BlockDevice?
  }

  datatype Meta = Meta(
    mode: nat,
    owner: Option<(int, int)>,
    times: Option<(int, int)>,
    xattrs: map<string, seq<Byte>>,
    acl: seq<string>)

  datatype Inode =
    | DirInode(meta: Meta)
    | FileInode(meta: Meta, data: seq<Byte>)
    | SymlinkInode(meta: Meta, target: string)
    | SpecialInode(meta: Meta, kind: SpecialType, major: int, minor: int)

  datatype Fs = Fs(tree: map<Path, nat>, inodes: map<nat, Inode>, next: nat)

  function NewMeta(mode: nat): Meta {
    Meta(mode, None, None, map[], [])
  }

  /** Every path names a stored inode, and the next inode number is unused. */
  ghost predicate Stored(fs: Fs) {
    && (forall p :: p in fs.tree ==> fs.tree[p] in fs.inodes)
    && (forall i :: i in fs.inodes ==> i < fs.next)
  }

  predicate Exists(fs: Fs, p: Path) {
    p in fs.tree && fs.tree[p] in fs.inodes
  }

  function At(fs: Fs, p: Path): Inode
    requires Exists(fs, p)
  {
    fs.inodes[fs.tree[p]]
  }

  predicate IsDir(fs: Fs, p: Path) {
    Exists(fs, p) && At(fs, p).DirInode?
  }

  predicate IsFile(fs: Fs, p: Path) {
    Exists(fs, p) && At(fs, p).FileInode?
  }

  predicate IsSymlink(fs: Fs, p: Path) {
    Exists(fs, p) && At(fs, p).SymlinkInode?
  }

  /** Change the inode a path names; every other name of that inode sees the change. */
  function Update(fs: Fs, p: Path, inode: Inode): Fs
    requires p in fs.tree
  {
    fs.(inodes := fs.inodes[fs.tree[p] := inode])
  }

  /** Adding or removing a directory entry moves the directory's modification time. */
  function Touch(fs: Fs, p: Path): Fs {
    if IsDir(fs, p) then Update(fs, p, DirInode(At(fs, p).meta.(times := None))) else fs
  }

  /** A new inode under a new name. */
  function Add(fs: Fs, p: Path, inode: Inode): Fs
    requires p != []
  {
    Touch(Fs(fs.tree[p := fs.next], fs.inodes[fs.next := inode], fs.next + 1), Parent(p))
  }

  /** link(2): a new name for an existing inode. */
  function Link(fs: Fs, source: Path, p: Path): Fs
    requires source in fs.tree && p != []
  {
    Touch(fs.(tree := fs.tree[p := fs.tree[source]]), Parent(p))
  }

  /** The names at and below `top` go; inodes stay until nothing names them. */
  function RemoveTree(fs: Fs, top: Path): Fs
    requires top != []
  {
    Touch(fs.(tree := map p | p in fs.tree && !(top <= p) :: fs.tree[p]), Parent(top))
  }

  function MovedNames(tree: map<Path, nat>, source: Path, destination: Path): map<Path, nat> {
    var moved := set p | p in tree && source <= p :: destination + p[|source|..];
    assert forall p :: source <= p ==> source + (destination + p[|source|..])[|destination|..] == p;
    map q | q in moved :: tree[source + q[|destination|..]]
  }

  /** rename(2) onto a free name. */
  function Move(fs: Fs, source: Path, destination: Path): Fs
    requires source != [] && destination != []
  {
    var kept := map p | p in fs.tree && !(source <= p) :: fs.tree[p];
    Touch(Touch(fs.(tree := kept + MovedNames(fs.tree, source, destination)), Parent(source)), Parent(destination))
  }

  // ---------------------------------------------------------------- what a tree looks like

  /** Everything about an inode but its times. */
  function Timeless(inode: Inode): Inode {
    match inode
    case DirInode(meta) => DirInode(meta.(times := None))
    case FileInode(meta, data) => FileInode(meta.(times := None), data)
    case SymlinkInode(meta, target) => SymlinkInode(meta.(times := None), target)
    case SpecialInode(meta, kind, major, minor) => SpecialInode(meta.(times := None), kind, major, minor)
  }

  /** Distinct names of distinct inodes. */
  ghost predicate Unshared(fs: Fs) {
    forall p, q :: p in fs.tree && q in fs.tree && fs.tree[p] == fs.tree[q] ==> p == q
  }
}
