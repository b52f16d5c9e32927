/**
  The virtual tree predicts the real one. `Simulates` relates a virtual node map to a real
  filesystem, hard links included. Both sides accept the same operations, but for an overwrite
  that starts beyond the end of its file and for attributes of the root, which the scan does not
  read. After an accepted operation they agree again exactly when the operation did not change a
  node whose inode has another name: the virtual tree keeps one node a name.
 */
module Simulation {
  import opened Wrappers
  import opened Paths
  import opened Operations
  import VT = VirtualTree
  import opened FileSystem
  import opened RealOperations

  predicate SameKind(node: VT.Node, inode: Inode) {
    match inode
    case DirInode(_) => node.kind == VT.DirNode
    case FileInode(_, data) => node.kind == VT.FileNode && node.size == |data|
    case SymlinkInode(_, _) => node.kind == VT.SymlinkNode
    case SpecialInode(_, _, _, _) => false
  }

  /** Type, size and attribute names; the root's names are those set since the scan. */
  predicate Matches(p: Path, node: VT.Node, inode: Inode) {
    SameKind(node, inode)
    && (if p == [] then node.xattrs <= inode.meta.xattrs.Keys else node.xattrs == inode.meta.xattrs.Keys)
  }

  /** Same paths, same types, same sizes, same attribute names. */
  ghost predicate Mirrors(nodes: VT.Nodes, fs: Fs) {
    && nodes.Keys == fs.tree.Keys
    && forall p :: p in nodes ==> fs.tree[p] in fs.inodes && Matches(p, nodes[p], At(fs, p))
  }

  /** link(2) refuses directories, so a directory has one name. */
  ghost predicate SingleDirs(fs: Fs) {
    forall p, q :: p in fs.tree && q in fs.tree && fs.tree[p] == fs.tree[q] && IsDir(fs, p) ==> p == q
  }

  /** Each side is sound by itself. */
  ghost predicate Grounded(nodes: VT.Nodes, fs: Fs) {
    VT.Tree(nodes) && Stored(fs) && SingleDirs(fs)
  }

  ghost predicate Linked(nodes: VT.Nodes, fs: Fs) {
    Stored(fs) && SingleDirs(fs) && Mirrors(nodes, fs)
  }

  ghost predicate Simulates(nodes: VT.Nodes, fs: Fs) {
    Grounded(nodes, fs) && Mirrors(nodes, fs)
  }

  /** chmod follows symlinks, and attribute calls on symlinks are refused: those are not tracked. */
  predicate Tracked(nodes: VT.Nodes, op: NormalOperation) {
    (op.Chmod? || op.SetXAttr? || op.RemoveXAttr?) && op.path in nodes ==> nodes[op.path].kind != VT.SymlinkNode
  }

  /** Accepted by the virtual tree only. */
  predicate StartsBeyondEnd(nodes: VT.Nodes, op: NormalOperation) {
    op.OverwriteRange? && op.path in nodes && nodes[op.path].kind == VT.FileNode && op.offset > nodes[op.path].size
  }

  /** Accepted by the real tree only: the scan does not read the root's attributes. */
  predicate RemovesUnscanned(nodes: VT.Nodes, fs: Fs, op: NormalOperation) {
    op.RemoveXAttr? && op.path == [] && [] in nodes && op.xattrName !in nodes[[]].xattrs
    && Exists(fs, []) && op.xattrName in At(fs, []).meta.xattrs
  }

  /** Another path names the same inode. */
  ghost predicate Shared(fs: Fs, p: Path) {
    exists q :: q in fs.tree && p in fs.tree && q != p && fs.tree[q] == fs.tree[p]
  }

  /** The operation changes the size or the attribute names of a node whose inode has another name. */
  ghost predicate ChangesShared(nodes: VT.Nodes, fs: Fs, op: NormalOperation) {
    var next := VT.Step(nodes, op);
    next.Ok? && op.path in nodes && op.path in next.value && next.value[op.path] != nodes[op.path] && Shared(fs, op.path)
  }

  // ---------------------------------------------------------------- the primitives

  lemma TouchSimulates(nodes: VT.Nodes, fs: Fs, p: Path)
    requires Linked(nodes, fs)
    ensures var next := Touch(fs, p); Linked(nodes, next) && (Unshared(fs) ==> Unshared(next))
  {
    assert Stored(Touch(fs, p)) && Touch(fs, p).tree == fs.tree;
    assert forall q :: q in fs.tree ==> Timeless(At(Touch(fs, p), q)) == Timeless(At(fs, q));
    assert forall i :: i in fs.inodes ==> i in Touch(fs, p).inodes;
    var next := Touch(fs, p);
    forall q | q in nodes
      ensures next.tree[q] in next.inodes && Matches(q, nodes[q], At(next, q)) && (IsDir(next, q) ==> IsDir(fs, q))
    {
      assert Timeless(At(next, q)) == Timeless(At(fs, q));
      assert Timeless(At(fs, q)).meta.xattrs == At(fs, q).meta.xattrs;
    }
  }

  lemma AddSimulates(nodes: VT.Nodes, fs: Fs, p: Path, node: VT.Node, inode: Inode)
    requires Linked(nodes, fs) && p !in nodes && p != [] && Matches(p, node, inode)
    ensures var next := Add(fs, p, inode); Linked(nodes[p := node], next) && (Unshared(fs) ==> Unshared(next))
  {
    var bare := WithNew(fs, p, inode);
    NewName(fs, p, inode);
    assert Mirrors(nodes[p := node], bare) by {
      hide Matches;
      forall q | q in nodes[p := node]
        ensures bare.tree[q] in bare.inodes && Matches(q, nodes[p := node][q], At(bare, q))
      {
        if q != p { assert fs.tree[q] in fs.inodes && At(bare, q) == At(fs, q); }
      }
    }
    hide Mirrors, SingleDirs, Unshared, Stored, Touch;
    TouchSimulates(nodes[p := node], bare, Parent(p));
  }

  /** A new inode has one name. */
  lemma NewName(fs: Fs, p: Path, inode: Inode)
    requires Stored(fs) && SingleDirs(fs) && p !in fs.tree
    ensures var bare := WithNew(fs, p, inode); Stored(bare) && SingleDirs(bare) && (Unshared(fs) ==> Unshared(bare))
  {
    var bare := WithNew(fs, p, inode);
    forall a, b | a in bare.tree && b in bare.tree && bare.tree[a] == bare.tree[b]
      ensures (IsDir(bare, a) ==> a == b) && (Unshared(fs) ==> a == b)
    {
      if a != p && b != p { assert IsDir(bare, a) ==> IsDir(fs, a); }
    }
  }

  /** A second name for a file: the virtual tree copies the node. */
  lemma LinkSimulates(nodes: VT.Nodes, fs: Fs, source: Path, p: Path)
    requires Linked(nodes, fs) && p !in nodes && p != [] && source in nodes && nodes[source].kind == VT.FileNode && source != []
    ensures Linked(nodes[p := nodes[source]], Link(fs, source, p))
  {
    hide Touch;
    var bare := fs.(tree := fs.tree[p := fs.tree[source]]);
    TouchSimulates(nodes[p := nodes[source]], bare, Parent(p));
  }

  lemma RemoveSimulates(nodes: VT.Nodes, fs: Fs, top: Path)
    requires Linked(nodes, fs) && top != []
    ensures var next := RemoveTree(fs, top);
      Linked(VT.WithoutSubtree(nodes, top), next) && (Unshared(fs) ==> Unshared(next))
  {
    var bare := fs.(tree := map p | p in fs.tree && !(top <= p) :: fs.tree[p]);
    TouchSimulates(VT.WithoutSubtree(nodes, top), bare, Parent(top));
  }

  /** A file's node is determined by its inode. */
  lemma SameFileSameNode(p: Path, q: Path, a: VT.Node, b: VT.Node, inode: Inode)
    requires p != [] && q != [] && inode.FileInode? && Matches(p, a, inode) && Matches(q, b, inode)
    ensures a == b
  {
  }

  /** Changing the inode of a path: the trees agree afterwards exactly when no other name sees a change. */
  lemma UpdateSimulates(nodes: VT.Nodes, fs: Fs, p: Path, node: VT.Node, inode: Inode)
    requires Linked(nodes, fs) && [] in nodes && nodes[[]].kind == VT.DirNode
    requires p in nodes && Matches(p, node, inode) && (inode.DirInode? <==> At(fs, p).DirInode?)
    requires IsFile(fs, p) ==> inode.FileInode?
    requires !IsFile(fs, p) && node != nodes[p] ==> IsDir(fs, p)
    requires !IsFile(fs, p) && !IsDir(fs, p) ==> inode.meta.xattrs.Keys == At(fs, p).meta.xattrs.Keys
    ensures var next := Update(fs, p, inode);
      && Stored(next) && SingleDirs(next) && (Unshared(fs) ==> Unshared(next))
      && (Mirrors(nodes[p := node], next) <==> !(node != nodes[p] && Shared(fs, p)))
  {
    DirsStaySingle(fs, p, inode);
    hide SingleDirs, Unshared, Stored;
    if node != nodes[p] && Shared(fs, p) {
      SiblingLeft(nodes, fs, p, node, inode);
    } else {
      hide Matches;
      var next := Update(fs, p, inode);
      forall q | q in nodes ensures next.tree[q] in next.inodes && Matches(q, nodes[p := node][q], At(next, q)) {
        SiblingKept(nodes, fs, p, node, inode, q);
      }
    }
  }

  lemma DirsStaySingle(fs: Fs, p: Path, inode: Inode)
    requires Stored(fs) && SingleDirs(fs) && Exists(fs, p) && (inode.DirInode? <==> At(fs, p).DirInode?)
    ensures var next := Update(fs, p, inode); Stored(next) && SingleDirs(next) && (Unshared(fs) ==> Unshared(next))
  {
    var next := Update(fs, p, inode);
    assert forall q :: q in fs.tree ==> (IsDir(next, q) <==> IsDir(fs, q));
  }

  /** Another name of a changed file is left behind. */
  lemma SiblingLeft(nodes: VT.Nodes, fs: Fs, p: Path, node: VT.Node, inode: Inode)
    requires Linked(nodes, fs) && [] in nodes && nodes[[]].kind == VT.DirNode
    requires p in nodes && Matches(p, node, inode) && node != nodes[p] && Shared(fs, p)
    requires IsFile(fs, p) ==> inode.FileInode?
    requires !IsFile(fs, p) ==> IsDir(fs, p)
    ensures !Mirrors(nodes[p := node], Update(fs, p, inode))
  {
    var next := Update(fs, p, inode);
    var q :| q in fs.tree && q != p && fs.tree[q] == fs.tree[p];
    assert IsFile(fs, p) && At(fs, q) == At(fs, p);
    assert p != [] && q != [];
    SameFileSameNode(p, q, nodes[p], nodes[q], At(fs, p));
    if Matches(q, nodes[q], inode) { SameFileSameNode(p, q, node, nodes[q], inode); }
    hide Matches;
    assert At(next, q) == inode && nodes[p := node][q] == nodes[q];
  }

  /** A path is matched after an update that no other name sees change. */
  lemma SiblingKept(nodes: VT.Nodes, fs: Fs, p: Path, node: VT.Node, inode: Inode, q: Path)
    requires Linked(nodes, fs) && [] in nodes && nodes[[]].kind == VT.DirNode
    requires p in nodes && q in nodes && Matches(p, node, inode) && (inode.DirInode? <==> At(fs, p).DirInode?)
    requires IsFile(fs, p) ==> inode.FileInode?
    requires !IsFile(fs, p) && !IsDir(fs, p) ==> inode.meta.xattrs.Keys == At(fs, p).meta.xattrs.Keys
    requires node == nodes[p] || !Shared(fs, p)
    ensures var next := Update(fs, p, inode);
      next.tree[q] in next.inodes && Matches(q, nodes[p := node][q], At(next, q))
  {
    if q != p && fs.tree[q] == fs.tree[p] {
      assert Shared(fs, p) && node == nodes[p];
      assert At(fs, q) == At(fs, p) && !IsDir(fs, p) && p != [] && q != [];
      if IsFile(fs, p) { SameFileSameNode(p, q, nodes[p], nodes[q], At(fs, p)); }
    }
  }

  /** The names a rename leaves: the same splice the virtual tree makes. */
  lemma MoveNamesMirror(nodes: VT.Nodes, tree: map<Path, nat>, source: Path, destination: Path)
    requires nodes.Keys == tree.Keys
    ensures MovedNames(tree, source, destination).Keys == VT.MovedSubtree(nodes, source, destination).Keys
  {
    forall q ensures q in MovedNames(tree, source, destination) <==> q in VT.MovedSubtree(nodes, source, destination) {
      MovedName(tree, source, destination, q);
      if q in VT.MovedSubtree(nodes, source, destination) {
        VT.MovedFrom(nodes, source, destination, q);
      }
      if q in MovedNames(tree, source, destination) {
        var p := source + q[|destination|..];
        assert p[|source|..] == q[|destination|..] && q == destination + p[|source|..];
      }
    }
  }

  lemma MovedTreeAt(nodes: VT.Nodes, tree: map<Path, nat>, source: Path, destination: Path, q: Path)
    requires nodes.Keys == tree.Keys && forall p :: p in tree ==> !(destination <= p)
    requires q in MovedTree(tree, source, destination)
    ensures NameBefore(source, destination, q) in tree
    ensures MovedTree(tree, source, destination)[q] == tree[NameBefore(source, destination, q)]
    ensures q in VT.MoveSubtree(nodes, source, destination)
    ensures VT.MoveSubtree(nodes, source, destination)[q] == nodes[NameBefore(source, destination, q)]
  {
    MoveNamesMirror(nodes, tree, source, destination);
    MovedName(tree, source, destination, q);
    if q in MovedNames(tree, source, destination) {
      VT.MovedFrom(nodes, source, destination, q);
    } else {
      assert q in tree;
    }
  }

  lemma MoveSimulates(nodes: VT.Nodes, fs: Fs, source: Path, destination: Path)
    requires Linked(nodes, fs) && source != [] && destination != []
    requires forall p :: p in nodes ==> !(destination <= p)
    requires !(source <= destination)
    ensures var next := Move(fs, source, destination);
      Linked(VT.MoveSubtree(nodes, source, destination), next) && (Unshared(fs) ==> Unshared(next))
  {
    var tree := MovedTree(fs.tree, source, destination);
    var moved := VT.MoveSubtree(nodes, source, destination);
    var bare := fs.(tree := tree);
    NamesMove(nodes, fs, source, destination);
    hide Matches, VT.MoveSubtree, MovedNames, NameBefore, Touch, Mirrors, SingleDirs, Unshared, Stored;
    TouchSimulates(moved, bare, Parent(source));
    TouchSimulates(moved, Touch(bare, Parent(source)), Parent(destination));
  }

  lemma NamesMove(nodes: VT.Nodes, fs: Fs, source: Path, destination: Path)
    requires Linked(nodes, fs) && source != [] && destination != []
    requires forall p :: p in nodes ==> !(destination <= p)
    ensures var bare := fs.(tree := MovedTree(fs.tree, source, destination));
      Linked(VT.MoveSubtree(nodes, source, destination), bare) && (Unshared(fs) ==> Unshared(bare))
  {
    NodesMove(nodes, fs, source, destination);
    hide VT.MoveSubtree, MovedNames, Mirrors, MovedTree, Stored;
    var bare := fs.(tree := MovedTree(fs.tree, source, destination));
    assert Stored(bare) by { assert Stored(fs.(tree := MovedTree(fs.tree, source, destination))); }
    if !SingleDirs(bare) {
      var a, b :| a in bare.tree && b in bare.tree && bare.tree[a] == bare.tree[b] && IsDir(bare, a) && a != b;
      MovedApart(nodes, fs, source, destination, a, b);
    }
    if Unshared(fs) && !Unshared(bare) {
      var a, b :| a in bare.tree && b in bare.tree && bare.tree[a] == bare.tree[b] && a != b;
      MovedApart(nodes, fs, source, destination, a, b);
    }
  }

  lemma NodesMove(nodes: VT.Nodes, fs: Fs, source: Path, destination: Path)
    requires Linked(nodes, fs) && source != [] && destination != []
    requires forall p :: p in nodes ==> !(destination <= p)
    ensures var bare := fs.(tree := MovedTree(fs.tree, source, destination));
      Mirrors(VT.MoveSubtree(nodes, source, destination), bare)
      && forall q :: q in bare.tree ==> bare.tree[q] in fs.inodes
  {
    MoveNamesMirror(nodes, fs.tree, source, destination);
    assert VT.MoveSubtree(nodes, source, destination).Keys == MovedTree(fs.tree, source, destination).Keys;
    hide Matches, VT.MoveSubtree, MovedNames, MovedTree, SingleDirs, Stored;
    var tree := MovedTree(fs.tree, source, destination);
    forall q | q in tree
      ensures tree[q] in fs.inodes && Matches(q, VT.MoveSubtree(nodes, source, destination)[q], fs.inodes[tree[q]])
    {
      NodeMoves(nodes, fs, source, destination, q);
    }
  }

  lemma MovedApart(nodes: VT.Nodes, fs: Fs, source: Path, destination: Path, a: Path, b: Path)
    requires Linked(nodes, fs) && forall p :: p in nodes ==> !(destination <= p)
    requires var tree := MovedTree(fs.tree, source, destination); a in tree && b in tree && tree[a] == tree[b]
    ensures IsDir(fs.(tree := MovedTree(fs.tree, source, destination)), a) || Unshared(fs) ==> a == b
  {
    MovedTreeAt(nodes, fs.tree, source, destination, a);
    MovedTreeAt(nodes, fs.tree, source, destination, b);
    hide VT.MoveSubtree, MovedNames, Matches;
    if NameBefore(source, destination, a) == NameBefore(source, destination, b) {
      OriginInjective(fs.tree, source, destination, a, b);
    }
  }

  lemma NodeMoves(nodes: VT.Nodes, fs: Fs, source: Path, destination: Path, q: Path)
    requires Linked(nodes, fs) && source != [] && destination != []
    requires forall p :: p in nodes ==> !(destination <= p)
    requires q in MovedTree(fs.tree, source, destination)
    ensures var tree := MovedTree(fs.tree, source, destination);
      tree[q] in fs.inodes && q in VT.MoveSubtree(nodes, source, destination)
      && Matches(q, VT.MoveSubtree(nodes, source, destination)[q], fs.inodes[tree[q]])
  {
    MovedTreeAt(nodes, fs.tree, source, destination, q);
    hide VT.MoveSubtree, MovedNames, MovedTree;
    var from := NameBefore(source, destination, q);
    assert from in nodes && Matches(from, nodes[from], At(fs, from));
    assert q == [] <==> from == [];
  }

  lemma OriginInjective(tree: map<Path, nat>, source: Path, destination: Path, a: Path, b: Path)
    requires NameBefore(source, destination, a) == NameBefore(source, destination, b)
    requires a in MovedTree(tree, source, destination) && b in MovedTree(tree, source, destination)
    ensures a == b
  {
    MovedName(tree, source, destination, a);
    MovedName(tree, source, destination, b);
    var p := NameBefore(source, destination, a);
    if destination <= a {
      assert source <= p && a == destination + a[|destination|..] && p[|source|..] == a[|destination|..];
    }
    if destination <= b {
      assert source <= p && b == destination + b[|destination|..] && p[|source|..] == b[|destination|..];
    }
  }

  // ---------------------------------------------------------------- the checks agree

  lemma {:induction false} ParentsClear(nodes: VT.Nodes, fs: Fs, p: Path, k: nat)
    requires Mirrors(nodes, fs)
    requires forall i :: k <= i < |p| ==> p[..i] in nodes && nodes[p[..i]].kind == VT.DirNode
    ensures ParentError(fs, p, k) == None
    decreases |p| - k
  {
    if k < |p| {
      assert p[..k] in nodes;
      ParentsClear(nodes, fs, p, k + 1);
    }
  }

  /** Below an existing parent directory no component blocks. */
  lemma NothingBlocks(nodes: VT.Nodes, fs: Fs, p: Path)
    requires VT.Tree(nodes) && Mirrors(nodes, fs)
    requires p in nodes || VT.HasParentDirectory(nodes, p)
    ensures ParentError(fs, p, 1) == None
  {
    forall i | 1 <= i < |p| ensures p[..i] in nodes && nodes[p[..i]].kind == VT.DirNode {
      var q := p[..i];
      if p in nodes {
        VT.AncestorsAreDirectories(nodes, p, q);
      } else if q != Parent(p) {
        assert q < Parent(p);
        VT.AncestorsAreDirectories(nodes, Parent(p), q);
      }
    }
    ParentsClear(nodes, fs, p, 1);
  }

  lemma NodeKinds(nodes: VT.Nodes, fs: Fs, p: Path)
    requires Mirrors(nodes, fs)
    ensures Exists(fs, p) <==> p in nodes
    ensures IsDir(fs, p) <==> p in nodes && nodes[p].kind == VT.DirNode
    ensures IsFile(fs, p) <==> p in nodes && nodes[p].kind == VT.FileNode
    ensures IsSymlink(fs, p) <==> p in nodes && nodes[p].kind == VT.SymlinkNode
    ensures IsFile(fs, p) ==> |At(fs, p).data| == nodes[p].size
    ensures p in nodes ==> Matches(p, nodes[p], At(fs, p))
  {
  }

  /** What the real checks on an existing path see. */
  lemma ExistingChecks(nodes: VT.Nodes, fs: Fs, p: Path)
    requires Simulates(nodes, fs)
    ensures p in nodes ==> ParentError(fs, p, 1) == None && Matches(p, nodes[p], At(fs, p))
    ensures Exists(fs, p) <==> p in nodes
    ensures IsFile(fs, p) <==> p in nodes && nodes[p].kind == VT.FileNode
    ensures IsSymlink(fs, p) <==> p in nodes && nodes[p].kind == VT.SymlinkNode
    ensures IsFile(fs, p) ==> |At(fs, p).data| == nodes[p].size
  {
    NodeKinds(nodes, fs, p);
    if p in nodes { NothingBlocks(nodes, fs, p); }
  }

  // ---------------------------------------------------------------- one operation of each kind

  lemma CreateAgrees(nodes: VT.Nodes, fs: Fs, p: Path, node: VT.Node, inode: Inode)
    requires Simulates(nodes, fs) && p != [] && Canonical(p) && node.size >= 0 && Matches(p, node, inode)
    ensures ParentError(fs, p, 1).None? && CreateAt(fs, p, inode).Ok? <==> VT.Create(nodes, p, node).Ok?
    ensures VT.Create(nodes, p, node).Ok? ==>
              Simulates(VT.Create(nodes, p, node).value, CreateAt(fs, p, inode).value)
              && (Unshared(fs) ==> Unshared(CreateAt(fs, p, inode).value))
  {
    hide VT.Tree, Stored, SingleDirs, Unshared, Mirrors, Add, Matches;
    NodeKinds(nodes, fs, p);
    NodeKinds(nodes, fs, Parent(p));
    if VT.Create(nodes, p, node).Ok? {
      NothingBlocks(nodes, fs, p);
      AddSimulates(nodes, fs, p, node, inode);
      VT.CreateKeepsTree(nodes, p, node);
    }
  }

  lemma LinkAgrees(nodes: VT.Nodes, fs: Fs, p: Path, source: Path)
    requires Simulates(nodes, fs) && p != [] && source != [] && Canonical(p)
    ensures RealStep(fs, CreateHardlink(p, source)).Ok? <==> VT.Step(nodes, CreateHardlink(p, source)).Ok?
    ensures VT.Step(nodes, CreateHardlink(p, source)).Ok? ==>
              Simulates(VT.Step(nodes, CreateHardlink(p, source)).value, RealStep(fs, CreateHardlink(p, source)).value)
  {
    NodeSizes(nodes, source);
    hide VT.Tree, Stored, SingleDirs, Mirrors, Link, Matches;
    NodeKinds(nodes, fs, p);
    NodeKinds(nodes, fs, source);
    NodeKinds(nodes, fs, Parent(p));
    if VT.Step(nodes, CreateHardlink(p, source)).Ok? {
      NothingBlocks(nodes, fs, p);
      NothingBlocks(nodes, fs, source);
      LinkSimulates(nodes, fs, source, p);
      VT.CreateKeepsTree(nodes, p, nodes[source]);
    }
  }

  lemma NodeSizes(nodes: VT.Nodes, p: Path)
    requires VT.Tree(nodes)
    ensures p in nodes ==> nodes[p].size >= 0
  {
    if p in nodes { assert VT.NodeInTree(nodes, p); }
  }

  lemma DeleteAgrees(nodes: VT.Nodes, fs: Fs, p: Path)
    requires Simulates(nodes, fs) && p != []
    ensures RealStep(fs, Delete(p)).Ok? <==> VT.Step(nodes, Delete(p)).Ok?
    ensures VT.Step(nodes, Delete(p)).Ok? ==>
              Simulates(VT.Step(nodes, Delete(p)).value, RealStep(fs, Delete(p)).value)
              && p !in VT.Step(nodes, Delete(p)).value
              && (Unshared(fs) ==> Unshared(RealStep(fs, Delete(p)).value))
  {
    hide VT.Tree, Stored, SingleDirs, Unshared, Mirrors, RemoveTree, Matches;
    NodeKinds(nodes, fs, p);
    if p in nodes {
      NothingBlocks(nodes, fs, p);
      if nodes[p].kind != VT.DirNode { VT.LeafIsSubtree(nodes, p, p); }
      RemoveSimulates(nodes, fs, p);
      VT.RemoveKeepsTree(nodes, p);
    }
  }

  lemma RenameAgrees(nodes: VT.Nodes, fs: Fs, source: Path, destination: Path)
    requires Simulates(nodes, fs) && source != [] && destination != [] && source != destination && Canonical(destination)
    ensures RealStep(fs, Rename(source, destination)).Ok? <==> VT.Step(nodes, Rename(source, destination)).Ok?
    ensures VT.Step(nodes, Rename(source, destination)).Ok? ==>
              Simulates(VT.Step(nodes, Rename(source, destination)).value, RealStep(fs, Rename(source, destination)).value)
              && source !in VT.Step(nodes, Rename(source, destination)).value
              && (Unshared(fs) ==> Unshared(RealStep(fs, Rename(source, destination)).value))
  {
    hide VT.Tree, Stored, SingleDirs, Unshared, Mirrors, Move, VT.MoveSubtree, Matches;
    NodeKinds(nodes, fs, source);
    NodeKinds(nodes, fs, destination);
    NodeKinds(nodes, fs, Parent(destination));
    if VT.Step(nodes, Rename(source, destination)).Ok? {
      NothingBlocks(nodes, fs, source);
      NothingBlocks(nodes, fs, destination);
      VT.StepRename(nodes, source, destination);
      VT.AbsentSubtree(nodes, destination);
      MoveSimulates(nodes, fs, source, destination);
      VT.RenameKeepsTree(nodes, source, destination);
      VT.RenameIsBijection(nodes, source, destination);
    }
  }

  /** Whether the trees agree after the inode of `p` became `inode` and its node `node`. */
  ghost predicate UpdateAgrees(nodes: VT.Nodes, fs: Fs, p: Path, node: VT.Node, inode: Inode)
    requires p in fs.tree
  {
    var next := Update(fs, p, inode);
    && Grounded(nodes[p := node], next) && (Unshared(fs) ==> Unshared(next))
    && (Mirrors(nodes[p := node], next) <==> !(p in nodes && node != nodes[p] && Shared(fs, p)))
  }

  lemma RootIsDir(nodes: VT.Nodes)
    requires VT.Tree(nodes)
    ensures [] in nodes && nodes[[]].kind == VT.DirNode
  {
  }

  /** Truncate, append and overwrite. */
  lemma ResizeAgrees(nodes: VT.Nodes, fs: Fs, p: Path, size: int -> int, data: seq<Byte>)
    requires Simulates(nodes, fs) && p in nodes && nodes[p].kind == VT.FileNode
    requires size(nodes[p].size) == |data|
    ensures Exists(fs, p) && VT.UpdateFile(nodes, p, size).Ok?
    ensures UpdateAgrees(nodes, fs, p, nodes[p].(size := |data|), FileInode(At(fs, p).meta.(times := None), data))
  {
    RootIsDir(nodes);
    NodeKinds(nodes, fs, p);
    var node := nodes[p].(size := |data|);
    VT.UpdateKeepsTree(nodes, p, node);
    hide VT.Tree, Stored, SingleDirs, Unshared, Mirrors, Update, Shared;
    UpdateSimulates(nodes, fs, p, node, FileInode(At(fs, p).meta.(times := None), data));
  }

  /** Metadata: with the attribute names `names` where the node has them already, or on a file or directory. */
  lemma MetaAgrees(nodes: VT.Nodes, fs: Fs, p: Path, meta: Meta, names: set<string>)
    requires Simulates(nodes, fs) && p in nodes && Exists(fs, p)
    requires Matches(p, nodes[p].(xattrs := names), WithMeta(At(fs, p), meta))
    requires (meta.xattrs.Keys == At(fs, p).meta.xattrs.Keys && names == nodes[p].xattrs) || nodes[p].kind != VT.SymlinkNode
    ensures UpdateAgrees(nodes, fs, p, nodes[p].(xattrs := names), WithMeta(At(fs, p), meta))
  {
    RootIsDir(nodes);
    NodeKinds(nodes, fs, p);
    NodeSizes(nodes, p);
    var node := nodes[p].(xattrs := names);
    VT.UpdateKeepsTree(nodes, p, node);
    hide VT.Tree, Stored, SingleDirs, Unshared, Mirrors, Update, Shared;
    UpdateSimulates(nodes, fs, p, node, WithMeta(At(fs, p), meta));
  }

  // ---------------------------------------------------------------- one step

  /** The verdict on one step. */
  ghost predicate Agrees(nodes: VT.Nodes, fs: Fs, op: NormalOperation) {
    var virtual, actual := VT.Step(nodes, op), RealStep(fs, op);
    && (actual.Ok? <==> (virtual.Ok? && !StartsBeyondEnd(nodes, op)) || RemovesUnscanned(nodes, fs, op))
    && (actual.Ok? && virtual.Ok? ==>
          Grounded(virtual.value, actual.value) && (Mirrors(virtual.value, actual.value) <==> !ChangesShared(nodes, fs, op)))
    && (actual.Ok? && Unshared(fs) && !op.CreateHardlink? ==> Unshared(actual.value))
  }

  lemma CreationAgrees(nodes: VT.Nodes, fs: Fs, op: NormalOperation)
    requires Simulates(nodes, fs) && WellFormed(op) && (op.CreateFile? || op.CreateDir? || op.CreateSymlink?)
    ensures Agrees(nodes, fs, op)
  {
    hide Grounded, Mirrors, Add, Unshared, Shared;
    match op
    case CreateFile(p, mode, data) =>
      CreateAgrees(nodes, fs, p, VT.Node(VT.FileNode, |data|, {}), FileInode(NewMeta(mode), data));
    case CreateDir(p, mode) =>
      CreateAgrees(nodes, fs, p, VT.Node(VT.DirNode, 0, {}), DirInode(NewMeta(mode)));
    case CreateSymlink(p, target) =>
      CreateAgrees(nodes, fs, p, VT.Node(VT.SymlinkNode, 0, {}), SymlinkInode(NewMeta(0x1ff), target));
  }

  lemma RearrangementAgrees(nodes: VT.Nodes, fs: Fs, op: NormalOperation)
    requires Simulates(nodes, fs) && WellFormed(op) && (op.CreateHardlink? || op.Delete? || op.Rename?)
    ensures Agrees(nodes, fs, op)
  {
    hide Grounded, Mirrors, Unshared, Shared, Move, RemoveTree, Link, VT.MoveSubtree, VT.WithoutSubtree;
    match op
    case CreateHardlink(p, source) =>
      LinkAgrees(nodes, fs, p, source);
    case Delete(p) =>
      DeleteAgrees(nodes, fs, p);
    case Rename(source, destination) =>
      RenameAgrees(nodes, fs, source, destination);
  }

  lemma ResizingAgrees(nodes: VT.Nodes, fs: Fs, op: NormalOperation)
    requires Simulates(nodes, fs) && WellFormed(op) && (op.Truncate? || op.Append? || op.OverwriteRange?)
    ensures Agrees(nodes, fs, op)
  {
    hide Grounded, Mirrors, Update, Unshared, Shared;
    ExistingChecks(nodes, fs, op.path);
    match op
    case Truncate(p, size) =>
      if IsFile(fs, p) { ResizeAgrees(nodes, fs, p, _ => size, Resized(At(fs, p).data, size)); }
    case Append(p, data) =>
      if IsFile(fs, p) { ResizeAgrees(nodes, fs, p, size => size + |data|, At(fs, p).data + data); }
    case OverwriteRange(p, offset, data) =>
      if IsFile(fs, p) && offset <= |At(fs, p).data| {
        ResizeAgrees(nodes, fs, p, size => if offset + |data| > size then offset + |data| else size,
                     Overwritten(At(fs, p).data, offset, data));
      }
  }

  lemma MetadataAgrees(nodes: VT.Nodes, fs: Fs, op: NormalOperation)
    requires Simulates(nodes, fs) && WellFormed(op) && Tracked(nodes, op)
    requires op.Chmod? || op.Chown? || op.SetXAttr? || op.RemoveXAttr? || op.UnknownKind?
    ensures Agrees(nodes, fs, op)
  {
    hide Grounded, Mirrors, Update, Unshared, Shared;
    ExistingChecks(nodes, fs, op.path);
    match op
    case Chmod(p, mode) =>
      if p in nodes {
        MetaAgrees(nodes, fs, p, At(fs, p).meta.(mode := mode), nodes[p].xattrs);
        assert nodes[p := nodes[p].(xattrs := nodes[p].xattrs)] == nodes;
      }
    case Chown(p, uid, gid) =>
      if p in nodes {
        MetaAgrees(nodes, fs, p, At(fs, p).meta.(owner := Some((uid, gid))), nodes[p].xattrs);
        assert nodes[p := nodes[p].(xattrs := nodes[p].xattrs)] == nodes;
      }
    case SetXAttr(p, name, value) =>
      if p in nodes {
        var meta := At(fs, p).meta;
        MetaAgrees(nodes, fs, p, meta.(xattrs := meta.xattrs[name := value]), nodes[p].xattrs + {name});
      }
    case RemoveXAttr(p, name) =>
      if p in nodes {
        var meta := At(fs, p).meta;
        var less := meta.xattrs - {name};
        assert less.Keys == meta.xattrs.Keys - {name};
        MetaAgrees(nodes, fs, p, meta.(xattrs := less), nodes[p].xattrs - {name});
      }
    case UnknownKind(_, _) =>
  }

  /**
    One step. The real tree accepts an operation exactly when the virtual tree does and it is no
    overwrite starting beyond the end, or it removes an attribute of the root nobody scanned; and
    when both accept, the trees agree afterwards exactly when no other name of the changed inode
    is left behind.
   */
  lemma StepAgrees(nodes: VT.Nodes, fs: Fs, op: NormalOperation)
    requires Simulates(nodes, fs) && WellFormed(op) && Tracked(nodes, op)
    ensures RealStep(fs, op).Ok? <==>
      (VT.Step(nodes, op).Ok? && !StartsBeyondEnd(nodes, op)) || RemovesUnscanned(nodes, fs, op)
    ensures RealStep(fs, op).Ok? && VT.Step(nodes, op).Ok? ==>
      var virtual, actual := VT.Step(nodes, op).value, RealStep(fs, op).value;
      Grounded(virtual, actual) && (Mirrors(virtual, actual) <==> !ChangesShared(nodes, fs, op))
    ensures RealStep(fs, op).Ok? && Unshared(fs) && !op.CreateHardlink? ==> Unshared(RealStep(fs, op).value)
  {
    hide Grounded, Mirrors, WellFormed, RealStep, VT.Step, ChangesShared, StartsBeyondEnd, RemovesUnscanned, Unshared;
    match op
    case CreateFile(_, _, _) => CreationAgrees(nodes, fs, op);
    case CreateDir(_, _) => CreationAgrees(nodes, fs, op);
    case CreateSymlink(_, _) => CreationAgrees(nodes, fs, op);
    case CreateHardlink(_, _) => RearrangementAgrees(nodes, fs, op);
    case Delete(_) => RearrangementAgrees(nodes, fs, op);
    case Rename(_, _) => RearrangementAgrees(nodes, fs, op);
    case Truncate(_, _) => ResizingAgrees(nodes, fs, op);
    case Append(_, _) => ResizingAgrees(nodes, fs, op);
    case OverwriteRange(_, _, _) => ResizingAgrees(nodes, fs, op);
    case _ => MetadataAgrees(nodes, fs, op);
  }

  /** Without shared inodes nothing is left behind. */
  lemma UnsharedNeverDiverges(nodes: VT.Nodes, fs: Fs, op: NormalOperation)
    requires Unshared(fs)
    ensures !ChangesShared(nodes, fs, op)
  {
    hide VT.Step;
  }
}
