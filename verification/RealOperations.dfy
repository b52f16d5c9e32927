/**
  mutate.go's `applyOperation`: one normalised operation against the real tree. `RealStep` says
  what it does; `Disk.ApplyOperation` is the procedure, with its checks in source order.
 */
module RealOperations {
  import opened Wrappers
  import opened Paths
  import opened Operations
  import opened FileSystem
  import opened RealEffects

  datatype RealError =
    | ParentMissing | SymlinkParent | ParentNotDirectory
    | AlreadyExists | PathMissing | NotRegularFile
    | DestinationInsideSource | OffsetBeyondEnd
    | FollowsSymlink | XAttrRefused | KindUnsupported

  /** ensureNoSymlinkParents, from the k-th component on: the first component that is no directory. */
  function ParentError(fs: Fs, p: Path, k: nat): Option<RealError>
    decreases |p| - k
  {
    if k >= |p| then None
    else if !Exists(fs, p[..k]) then Some(ParentMissing)
    else if IsSymlink(fs, p[..k]) then Some(SymlinkParent)
    else if !IsDir(fs, p[..k]) then Some(ParentNotDirectory)
    else ParentError(fs, p, k + 1)
  }

  /** ensureParentDirectory. */
  predicate ParentIsDir(fs: Fs, p: Path) {
    p != [] && IsDir(fs, Parent(p))
  }

  function CreateAt(fs: Fs, p: Path, inode: Inode): Result<Fs, RealError> {
    if !ParentIsDir(fs, p) then Err(ParentNotDirectory)
    else if Exists(fs, p) then Err(AlreadyExists)
    else Ok(Add(fs, p, inode))
  }

  /** ftruncate(2) */
  function Resized(data: seq<Byte>, size: nat): (r: seq<Byte>)
    ensures |r| == size
  {
    if size <= |data| then data[..size] else data + Zeros(size - |data|)
  }

  /** pwrite(2) at an offset inside the file or at its end. */
  function Overwritten(data: seq<Byte>, offset: nat, bytes: seq<Byte>): (r: seq<Byte>)
    requires offset <= |data|
    ensures |r| == if offset + |bytes| > |data| then offset + |bytes| else |data|
  {
    data[..offset] + bytes + (if offset + |bytes| < |data| then data[offset + |bytes|..] else [])
  }

  function WithData(fs: Fs, p: Path, data: seq<Byte>): Fs
    requires Exists(fs, p)
  {
    Update(fs, p, FileInode(At(fs, p).meta.(times := None), data))
  }

  function WithMeta(inode: Inode, meta: Meta): Inode {
    match inode
    case DirInode(_) => DirInode(meta)
    case FileInode(_, data) => FileInode(meta, data)
    case SymlinkInode(_, target) => SymlinkInode(meta, target)
    case SpecialInode(_, kind, major, minor) => SpecialInode(meta, kind, major, minor)
  }

  function RealStep(fs: Fs, op: NormalOperation): Result<Fs, RealError> {
    var blocked := ParentError(fs, op.path, 1);
    if blocked.Some? then Err(blocked.value)
    else match op
      case CreateFile(p, mode, data) => CreateAt(fs, p, FileInode(NewMeta(mode), data))
      case CreateDir(p, mode) => CreateAt(fs, p, DirInode(NewMeta(mode)))
      case CreateSymlink(p, target) => CreateAt(fs, p, SymlinkInode(NewMeta(0x1ff), target))
      case CreateHardlink(p, source) =>
        var sourceBlocked := ParentError(fs, source, 1);
        if sourceBlocked.Some? then Err(sourceBlocked.value)
        else if !ParentIsDir(fs, p) then Err(ParentNotDirectory)
        else if Exists(fs, p) then Err(AlreadyExists)
        else if !Exists(fs, source) then Err(PathMissing)
        else if !IsFile(fs, source) then Err(NotRegularFile)
        else Ok(Link(fs, source, p))
      case Delete(p) =>
        if !Exists(fs, p) || p == [] then Err(PathMissing)
        else Ok(RemoveTree(fs, p))
      case Rename(source, destination) =>
        var destinationBlocked := ParentError(fs, destination, 1);
        if destinationBlocked.Some? then Err(destinationBlocked.value)
        else if !Exists(fs, source) || source == [] then Err(PathMissing)
        else if IsDir(fs, source) && Below(destination, source) then Err(DestinationInsideSource)
        else if !ParentIsDir(fs, destination) then Err(ParentNotDirectory)
        else if Exists(fs, destination) then Err(AlreadyExists)
        else Ok(Move(fs, source, destination))
      case Chmod(p, mode) =>
        if !Exists(fs, p) then Err(PathMissing)
        else if IsSymlink(fs, p) then Err(FollowsSymlink)
        else Ok(Update(fs, p, WithMeta(At(fs, p), At(fs, p).meta.(mode := mode))))
      case Chown(p, uid, gid) =>
        if !Exists(fs, p) then Err(PathMissing)
        else Ok(Update(fs, p, WithMeta(At(fs, p), At(fs, p).meta.(owner := Some((uid, gid))))))
      case Truncate(p, size) =>
        if !Exists(fs, p) then Err(PathMissing)
        else if !IsFile(fs, p) || size < 0 then Err(NotRegularFile)
        else Ok(WithData(fs, p, Resized(At(fs, p).data, size)))
      case Append(p, data) =>
        if !Exists(fs, p) then Err(PathMissing)
        else if !IsFile(fs, p) then Err(NotRegularFile)
        else Ok(WithData(fs, p, At(fs, p).data + data))
      case OverwriteRange(p, offset, data) =>
        if !Exists(fs, p) then Err(PathMissing)
        else if !IsFile(fs, p) || offset < 0 then Err(NotRegularFile)
        else if offset > |At(fs, p).data| then Err(OffsetBeyondEnd)
        else Ok(WithData(fs, p, Overwritten(At(fs, p).data, offset, data)))
      case SetXAttr(p, name, value) =>
        if !Exists(fs, p) then Err(PathMissing)
        else if IsSymlink(fs, p) then Err(XAttrRefused)
        else
          var meta := At(fs, p).meta;
          Ok(Update(fs, p, WithMeta(At(fs, p), meta.(xattrs := meta.xattrs[name := value]))))
      case RemoveXAttr(p, name) =>
        if !Exists(fs, p) then Err(PathMissing)
        else if IsSymlink(fs, p) || name !in At(fs, p).meta.xattrs then Err(XAttrRefused)
        else
          var meta := At(fs, p).meta;
          Ok(Update(fs, p, WithMeta(At(fs, p), meta.(xattrs := meta.xattrs - {name}))))
      case UnknownKind(_, _) => Err(KindUnsupported)
  }

  // ---------------------------------------------------------------- what a step leaves

  /** A directory whose entry came or went shows it in its times and nowhere else. */
  lemma TouchKeeps(fs: Fs, p: Path)
    requires Sound(fs)
    ensures var next := Touch(fs, p);
            Sound(next) && next.tree == fs.tree && forall q :: q in fs.tree ==> KeptAt(fs, q, next, q)
  {
    var next := Touch(fs, p);
    assert forall q :: q in fs.tree ==> Kept(At(fs, q), At(next, q));
    assert forall q :: IsDir(fs, q) ==> IsDir(next, q);
  }

  lemma TouchElsewhere(fs: Fs, p: Path, q: Path)
    requires Exists(fs, q) && p in fs.tree && fs.tree[p] != fs.tree[q]
    ensures Exists(Touch(fs, p), q) && At(Touch(fs, p), q) == At(fs, q)
  {
  }

  /** What was kept before the parent was touched is kept after. */
  lemma TouchedKept(fs: Fs, bare: Fs, parent: Path)
    requires Sound(bare) && NamesKept(fs, bare)
    ensures Sound(Touch(bare, parent)) && Touch(bare, parent).tree == bare.tree && NamesKept(fs, Touch(bare, parent))
  {
    TouchKeeps(bare, parent);
    hide Touch, Sound;
    var next := Touch(bare, parent);
    forall q | q in fs.tree && q in next.tree ensures next.tree[q] == fs.tree[q] && KeptAt(fs, q, next, q) {
      assert KeptAt(fs, q, bare, q) && KeptAt(bare, q, next, q);
    }
  }

  function WithNew(fs: Fs, p: Path, inode: Inode): Fs {
    Fs(fs.tree[p := fs.next], fs.inodes[fs.next := inode], fs.next + 1)
  }

  lemma CreateLeaves(fs: Fs, p: Path, inode: Inode)
    requires Sound(fs) && CreateAt(fs, p, inode).Ok?
    ensures var next := CreateAt(fs, p, inode).value; Sound(next) && Created(fs, next, p) && At(next, p) == inode
  {
    var bare := WithNew(fs, p, inode);
    BareCreated(fs, p, inode);
    TouchedKept(fs, bare, Parent(p));
    TouchElsewhere(bare, Parent(p), p);
    hide Touch, Sound, NamesKept;
  }

  lemma BareCreated(fs: Fs, p: Path, inode: Inode)
    requires Sound(fs) && ParentIsDir(fs, p) && !Exists(fs, p)
    ensures var bare := WithNew(fs, p, inode);
            Sound(bare) && Created(fs, bare, p) && At(bare, p) == inode
            && Parent(p) in bare.tree && bare.tree[Parent(p)] != bare.tree[p]
  {
    var bare := WithNew(fs, p, inode);
    assert forall q :: IsDir(fs, q) ==> IsDir(bare, q);
  }

  function WithName(fs: Fs, source: Path, p: Path): Fs
    requires source in fs.tree
  {
    fs.(tree := fs.tree[p := fs.tree[source]])
  }

  lemma BareLinked(fs: Fs, source: Path, p: Path)
    requires Sound(fs) && source in fs.tree && ParentIsDir(fs, p) && p !in fs.tree
    ensures Sound(WithName(fs, source, p)) && NamesKept(fs, WithName(fs, source, p))
  {
    assert forall q :: IsDir(fs, q) ==> IsDir(WithName(fs, source, p), q);
  }

  lemma LinkLeaves(fs: Fs, source: Path, p: Path)
    requires Sound(fs) && Exists(fs, source) && ParentIsDir(fs, p) && !Exists(fs, p)
    ensures Sound(Link(fs, source, p)) && Effect(fs, CreateHardlink(p, source), Link(fs, source, p))
  {
    BareLinked(fs, source, p);
    TouchedKept(fs, WithName(fs, source, p), Parent(p));
    assert Link(fs, source, p) == Touch(WithName(fs, source, p), Parent(p));
    hide Touch, Sound, NamesKept;
  }

  function Without(fs: Fs, top: Path): Fs {
    fs.(tree := map q | q in fs.tree && !(top <= q) :: fs.tree[q])
  }

  lemma BareRemoved(fs: Fs, p: Path)
    requires Sound(fs)
    ensures Sound(Without(fs, p)) && NamesKept(fs, Without(fs, p))
  {
    var bare := Without(fs, p);
    forall q | q in bare.tree && q != [] ensures IsDir(bare, Parent(q)) {
      assert IsDir(fs, Parent(q)) && !(p <= Parent(q));
    }
  }

  lemma RemoveLeaves(fs: Fs, p: Path)
    requires Sound(fs) && Exists(fs, p) && p != []
    ensures Sound(RemoveTree(fs, p)) && Effect(fs, Delete(p), RemoveTree(fs, p))
  {
    BareRemoved(fs, p);
    TouchedKept(fs, Without(fs, p), Parent(p));
    assert RemoveTree(fs, p) == Touch(Without(fs, p), Parent(p)) by { hide Touch; }
    assert forall q :: q in Without(fs, p).tree <==> q in fs.tree && !(p <= q);
    hide *;
    hide Touch, Sound, NamesKept, Without, RemoveTree;
    RemovalEffect(fs, p, RemoveTree(fs, p));
  }

  lemma RemovalEffect(fs: Fs, p: Path, next: Fs)
    requires p in fs.tree && (forall q :: q in next.tree <==> q in fs.tree && !(p <= q)) && NamesKept(fs, next)
    ensures Effect(fs, Delete(p), next)
  {
    hide NamesKept;
  }

  /** Changing an inode without changing whether it is a directory. */
  lemma UpdateLeaves(fs: Fs, p: Path, inode: Inode)
    requires Sound(fs) && Exists(fs, p) && (inode.DirInode? <==> At(fs, p).DirInode?)
    ensures Sound(Update(fs, p, inode)) && ChangedOnly(fs, Update(fs, p, inode), p) && At(Update(fs, p, inode), p) == inode
  {
    assert forall q :: IsDir(fs, q) ==> IsDir(Update(fs, p, inode), q);
  }

  /** Whatever is below an existing path is in a directory, so what exists above a path is one. */
  lemma {:induction false} AncestorIsDir(fs: Fs, p: Path, q: Path)
    requires Sound(fs) && q in fs.tree && p < q
    ensures IsDir(fs, p)
    decreases |q|
  {
    if p != Parent(q) { AncestorIsDir(fs, p, Parent(q)); }
  }

  /** Where a name came from. */
  function NameBefore(source: Path, destination: Path, q: Path): Path {
    if destination <= q then source + q[|destination|..] else q
  }

  lemma MovedName(tree: map<Path, nat>, source: Path, destination: Path, q: Path)
    ensures q in MovedNames(tree, source, destination) <==> destination <= q && source + q[|destination|..] in tree
    ensures q in MovedNames(tree, source, destination) ==>
      MovedNames(tree, source, destination)[q] == tree[source + q[|destination|..]]
  {
    if q in MovedNames(tree, source, destination) {
      var p :| p in tree && source <= p && q == destination + p[|source|..];
      assert q[|destination|..] == p[|source|..] && source + p[|source|..] == p;
    }
    if destination <= q {
      var p := source + q[|destination|..];
      assert p[|source|..] == q[|destination|..] && q == destination + p[|source|..];
    }
  }

  /** Nothing is there at or below a free name, and a rename never goes below its own source. */
  lemma RenameIsApart(fs: Fs, source: Path, destination: Path)
    requires Sound(fs) && RealStep(fs, Rename(source, destination)).Ok?
    ensures (forall q :: q in fs.tree ==> !(destination <= q)) && !(source <= destination)
  {
    forall q | q in fs.tree && destination <= q ensures false {
      if destination != q { AncestorIsDir(fs, destination, q); }
    }
    if source <= destination && source != Parent(destination) {
      AncestorIsDir(fs, source, Parent(destination));
    }
  }

  function MovedTree(tree: map<Path, nat>, source: Path, destination: Path): map<Path, nat> {
    (map p | p in tree && !(source <= p) :: tree[p]) + MovedNames(tree, source, destination)
  }

  function MovedOnly(fs: Fs, source: Path, destination: Path): Fs {
    fs.(tree := MovedTree(fs.tree, source, destination))
  }

  /** The names alone, before the two parents are touched. */
  lemma NamesMoved(fs: Fs, source: Path, destination: Path)
    requires Sound(fs) && (forall q :: q in fs.tree ==> !(destination <= q))
    ensures Renamed(fs, MovedOnly(fs, source, destination), source, destination)
  {
    var bare := MovedOnly(fs, source, destination);
    forall q
      ensures q in bare.tree <==> if destination <= q then source + q[|destination|..] in fs.tree else q in fs.tree && !(source <= q)
      ensures q in bare.tree ==> MovedKept(fs, bare, NameBefore(source, destination, q), q)
    {
      MovedName(fs.tree, source, destination, q);
      hide MovedNames;
    }
    hide MovedNames, MovedOnly;
  }

  lemma MovedSound(fs: Fs, source: Path, destination: Path)
    requires Sound(fs) && source in fs.tree && source != [] && ParentIsDir(fs, destination)
    requires (forall q :: q in fs.tree ==> !(destination <= q)) && !(source <= destination)
    ensures Sound(MovedOnly(fs, source, destination))
  {
    NamesMoved(fs, source, destination);
    var bare := MovedOnly(fs, source, destination);
    assert bare.inodes == fs.inodes && bare.next == fs.next;
    hide MovedNames, MovedOnly;
    forall q | q in bare.tree && q != [] ensures IsDir(bare, Parent(q)) {
      ParentMoves(fs, bare, source, destination, q);
    }
    forall q | q in bare.tree ensures bare.tree[q] in bare.inodes {
      assert MovedKept(fs, bare, NameBefore(source, destination, q), q);
    }
  }

  lemma ParentMoves(fs: Fs, bare: Fs, source: Path, destination: Path, q: Path)
    requires Sound(fs) && bare.inodes == fs.inodes && Renamed(fs, bare, source, destination)
    requires source != [] && ParentIsDir(fs, destination) && !(source <= destination) && q in bare.tree && q != []
    ensures IsDir(bare, Parent(q))
  {
    if destination < q {
      assert destination <= Parent(q);
      var p := source + q[|destination|..];
      assert Parent(p) == source + Parent(q)[|destination|..] && IsDir(fs, Parent(p));
      assert Parent(q) in bare.tree;
    } else if destination == q {
      assert IsDir(fs, Parent(q)) && !(destination <= Parent(q)) && !(source <= Parent(q));
    } else {
      assert IsDir(fs, Parent(q)) && !(destination <= Parent(q)) && !(source <= Parent(q));
    }
  }

  /** Touching a parent afterwards keeps a rename one. */
  lemma TouchedRenamed(fs: Fs, bare: Fs, source: Path, destination: Path, parent: Path)
    requires Sound(bare) && Renamed(fs, bare, source, destination)
    ensures Sound(Touch(bare, parent)) && Renamed(fs, Touch(bare, parent), source, destination)
  {
    TouchKeeps(bare, parent);
    hide Touch, Sound;
    var next := Touch(bare, parent);
    forall q | q in next.tree ensures MovedKept(fs, next, NameBefore(source, destination, q), q) {
      assert MovedKept(fs, bare, NameBefore(source, destination, q), q) && KeptAt(bare, q, next, q);
    }
  }

  lemma MoveIsTouched(fs: Fs, source: Path, destination: Path)
    requires source != [] && destination != []
    ensures Move(fs, source, destination) == Touch(Touch(MovedOnly(fs, source, destination), Parent(source)), Parent(destination))
  {
    hide MovedNames, Touch;
  }

  lemma MoveLeaves(fs: Fs, source: Path, destination: Path)
    requires Sound(fs) && RealStep(fs, Rename(source, destination)).Ok?
    ensures Sound(Move(fs, source, destination)) && Effect(fs, Rename(source, destination), Move(fs, source, destination))
  {
    RenameIsApart(fs, source, destination);
    assert source in fs.tree && ParentIsDir(fs, destination);
    hide *;
    hide Move, MovedOnly, Touch, Sound, Renamed;
    NamesMoved(fs, source, destination);
    MovedSound(fs, source, destination);
    MoveIsTouched(fs, source, destination);
    var bare := MovedOnly(fs, source, destination);
    TouchedRenamed(fs, bare, source, destination, Parent(source));
    TouchedRenamed(fs, Touch(bare, Parent(source)), source, destination, Parent(destination));
    MoveEffect(fs, source, destination, Move(fs, source, destination));
  }

  lemma MoveEffect(fs: Fs, source: Path, destination: Path, next: Fs)
    requires source in fs.tree && Renamed(fs, next, source, destination)
    ensures Effect(fs, Rename(source, destination), next)
  {
    hide Renamed;
  }

  lemma CreationLeaves(fs: Fs, op: NormalOperation)
    requires Sound(fs) && RealStep(fs, op).Ok? && (op.CreateFile? || op.CreateDir? || op.CreateSymlink?)
    ensures Sound(RealStep(fs, op).value) && Effect(fs, op, RealStep(fs, op).value)
  {
    hide Sound, Created, CreateAt;
    match op
    case CreateFile(p, mode, data) => CreateLeaves(fs, p, FileInode(NewMeta(mode), data));
    case CreateDir(p, mode) => CreateLeaves(fs, p, DirInode(NewMeta(mode)));
    case CreateSymlink(p, target) => CreateLeaves(fs, p, SymlinkInode(NewMeta(0x1ff), target));
  }

  lemma DataLeaves(fs: Fs, op: NormalOperation)
    requires Sound(fs) && RealStep(fs, op).Ok? && (op.Truncate? || op.Append? || op.OverwriteRange?)
    ensures Sound(RealStep(fs, op).value) && Effect(fs, op, RealStep(fs, op).value)
  {
    hide Sound, Update, ChangedOnly;
    var p := op.path;
    match op
    case Truncate(_, size) => UpdateLeaves(fs, p, FileInode(At(fs, p).meta.(times := None), Resized(At(fs, p).data, size)));
    case Append(_, data) => UpdateLeaves(fs, p, FileInode(At(fs, p).meta.(times := None), At(fs, p).data + data));
    case OverwriteRange(_, offset, data) =>
      UpdateLeaves(fs, p, FileInode(At(fs, p).meta.(times := None), Overwritten(At(fs, p).data, offset, data)));
  }

  lemma MetadataLeaves(fs: Fs, op: NormalOperation)
    requires Sound(fs) && RealStep(fs, op).Ok? && (op.Chmod? || op.Chown? || op.SetXAttr? || op.RemoveXAttr?)
    ensures Sound(RealStep(fs, op).value) && Effect(fs, op, RealStep(fs, op).value)
  {
    hide Sound, Update, ChangedOnly;
    var p := op.path;
    var meta := At(fs, p).meta;
    match op
    case Chmod(_, mode) => UpdateLeaves(fs, p, WithMeta(At(fs, p), meta.(mode := mode)));
    case Chown(_, uid, gid) => UpdateLeaves(fs, p, WithMeta(At(fs, p), meta.(owner := Some((uid, gid)))));
    case SetXAttr(_, name, value) => UpdateLeaves(fs, p, WithMeta(At(fs, p), meta.(xattrs := meta.xattrs[name := value])));
    case RemoveXAttr(_, name) => UpdateLeaves(fs, p, WithMeta(At(fs, p), meta.(xattrs := meta.xattrs - {name})));
  }

  /** A step keeps a tree a tree, and does to names, bytes and metadata what its operation says. */
  lemma StepLeaves(fs: Fs, op: NormalOperation)
    requires Sound(fs) && RealStep(fs, op).Ok?
    ensures Sound(RealStep(fs, op).value) && Effect(fs, op, RealStep(fs, op).value)
  {
    hide Sound, Effect, Link, Move, RemoveTree, Update, Add;
    match op
    case CreateFile(_, _, _) => CreationLeaves(fs, op);
    case CreateDir(_, _) => CreationLeaves(fs, op);
    case CreateSymlink(_, _) => CreationLeaves(fs, op);
    case CreateHardlink(p, source) => LinkLeaves(fs, source, p);
    case Delete(p) => RemoveLeaves(fs, p);
    case Rename(source, destination) => MoveLeaves(fs, source, destination);
    case Truncate(_, _) => DataLeaves(fs, op);
    case Append(_, _) => DataLeaves(fs, op);
    case OverwriteRange(_, _, _) => DataLeaves(fs, op);
    case UnknownKind(_, _) =>
    case _ => MetadataLeaves(fs, op);
  }

  /** The directory tree below a base path, stepped in place. */
  class Disk {
    var fs: Fs

    constructor (initial: Fs)
      ensures fs == initial
    {
      fs := initial;
    }

    method EnsureNoSymlinkParents(p: Path) returns (error: Option<RealError>)
      ensures error == ParentError(fs, p, 1)
    {
      var k := 1;
      while k < |p|
        invariant k >= 1 && ParentError(fs, p, 1) == ParentError(fs, p, k)
        decreases |p| - k
      {
        var current := p[..k];
        if !Exists(fs, current) { return Some(ParentMissing); }
        if IsSymlink(fs, current) { return Some(SymlinkParent); }
        if !IsDir(fs, current) { return Some(ParentNotDirectory); }
        k := k + 1;
      }
      return None;
    }

    /** The parent and existence checks of every create kind, then the creation. */
    method Create(p: Path, inode: Inode) returns (error: Option<RealError>)
      modifies this
      ensures error.None? ==> CreateAt(old(fs), p, inode) == Ok(fs)
      ensures error.Some? ==> CreateAt(old(fs), p, inode) == Err(error.value) && fs == old(fs)
    {
      if !ParentIsDir(fs, p) { return Some(ParentNotDirectory); }
      if Exists(fs, p) { return Some(AlreadyExists); }
      fs := Add(fs, p, inode);
      return None;
    }

    /** applyOperation: the tree becomes `RealStep`'s result, which has the operation's effect, or stays as it was. */
    method ApplyOperation(op: NormalOperation) returns (error: Option<RealError>)
      modifies this
      ensures error.None? ==> RealStep(old(fs), op) == Ok(fs)
      ensures error.None? && Sound(old(fs)) ==> Sound(fs) && Effect(old(fs), op, fs)
      ensures error.Some? ==> RealStep(old(fs), op) == Err(error.value) && fs == old(fs)
    {
      ghost var before := fs;
      error := Step(op);
      if error.None? && Sound(before) { StepLeaves(before, op); }
      hide Sound, Effect;
    }

    method Step(op: NormalOperation) returns (error: Option<RealError>)
      modifies this
      ensures error.None? ==> RealStep(old(fs), op) == Ok(fs)
      ensures error.Some? ==> RealStep(old(fs), op) == Err(error.value) && fs == old(fs)
    {
      hide Add, Link, Move, RemoveTree, Update;
      error := EnsureNoSymlinkParents(op.path);
      if error.Some? { return; }
      match op {
        case CreateFile(p, mode, data) =>
          error := Create(p, FileInode(NewMeta(mode), data));
        case CreateDir(p, mode) =>
          error := Create(p, DirInode(NewMeta(mode)));
        case CreateSymlink(p, target) =>
          error := Create(p, SymlinkInode(NewMeta(0x1ff), target));
        case CreateHardlink(p, source) =>
          error := EnsureNoSymlinkParents(source);
          if error.Some? { return; }
          if !ParentIsDir(fs, p) { return Some(ParentNotDirectory); }
          if Exists(fs, p) { return Some(AlreadyExists); }
          if !Exists(fs, source) { return Some(PathMissing); }
          if !IsFile(fs, source) { return Some(NotRegularFile); }
          fs := Link(fs, source, p);
        case Delete(p) =>
          if !Exists(fs, p) || p == [] { return Some(PathMissing); }
          fs := RemoveTree(fs, p);
        case Rename(source, destination) =>
          error := EnsureNoSymlinkParents(destination);
          if error.Some? { return; }
          if !Exists(fs, source) || source == [] { return Some(PathMissing); }
          if IsDir(fs, source) && Below(destination, source) { return Some(DestinationInsideSource); }
          if !ParentIsDir(fs, destination) { return Some(ParentNotDirectory); }
          if Exists(fs, destination) { return Some(AlreadyExists); }
          fs := Move(fs, source, destination);
        case Chmod(p, mode) =>
          if !Exists(fs, p) { return Some(PathMissing); }
          if IsSymlink(fs, p) { return Some(FollowsSymlink); }
          fs := Update(fs, p, WithMeta(At(fs, p), At(fs, p).meta.(mode := mode)));
        case Chown(p, uid, gid) =>
          if !Exists(fs, p) { return Some(PathMissing); }
          fs := Update(fs, p, WithMeta(At(fs, p), At(fs, p).meta.(owner := Some((uid, gid)))));
        case Truncate(p, size) =>
          if !Exists(fs, p) { return Some(PathMissing); }
          if !IsFile(fs, p) || size < 0 { return Some(NotRegularFile); }
          fs := WithData(fs, p, Resized(At(fs, p).data, size));
        case Append(p, data) =>
          if !Exists(fs, p) { return Some(PathMissing); }
          if !IsFile(fs, p) { return Some(NotRegularFile); }
          fs := WithData(fs, p, At(fs, p).data + data);
        case OverwriteRange(p, offset, data) =>
          if !Exists(fs, p) { return Some(PathMissing); }
          if !IsFile(fs, p) || offset < 0 { return Some(NotRegularFile); }
          if offset > |At(fs, p).data| { return Some(OffsetBeyondEnd); }
          fs := WithData(fs, p, Overwritten(At(fs, p).data, offset, data));
        case SetXAttr(p, name, value) =>
          if !Exists(fs, p) { return Some(PathMissing); }
          if IsSymlink(fs, p) { return Some(XAttrRefused); }
          var meta := At(fs, p).meta;
          fs := Update(fs, p, WithMeta(At(fs, p), meta.(xattrs := meta.xattrs[name := value])));
        case RemoveXAttr(p, name) =>
          if !Exists(fs, p) { return Some(PathMissing); }
          if IsSymlink(fs, p) || name !in At(fs, p).meta.xattrs { return Some(XAttrRefused); }
          var meta := At(fs, p).meta;
          fs := Update(fs, p, WithMeta(At(fs, p), meta.(xattrs := meta.xattrs - {name})));
        case UnknownKind(_, _) =>
          return Some(KindUnsupported);
      }
    }
  }
}
