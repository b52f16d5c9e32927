/**
  The virtual filesystem behind mutate.go's `mutationState`, as a value: one step of
  `applyVirtualOperation` is `Step`, and the theorems about it are proved here. The class that
  updates the map in place is in MutationState.dfy.
 */
module VirtualTree {
  import opened Wrappers
  import opened Paths
  import opened Operations

  datatype NodeType = FileNode | DirNode | SymlinkNode

  /** A nil and an empty Go xattr map behave alike here and are not told apart. */
  datatype Node = Node(kind: NodeType, size: int, xattrs: set<string>)

  type Nodes = map<Path, Node>

  datatype StepError =
    | AlreadyExists | ParentMissing | PathMissing | SourceMissing | NotRegularFile
    | DestinationInsideSource | XAttrNameInvalid | XAttrMissing | KindUnsupported

  /** path.Dir("/") is "/". */
  function ParentOf(p: Path): Path {
    if p == [] then [] else Parent(p)
  }

  predicate HasParentDirectory(nodes: Nodes, p: Path) {
    ParentOf(p) in nodes && nodes[ParentOf(p)].kind == DirNode
  }

  function Create(nodes: Nodes, p: Path, node: Node): Result<Nodes, StepError> {
    if p in nodes then Err(AlreadyExists)
    else if !HasParentDirectory(nodes, p) then Err(ParentMissing)
    else Ok(nodes[p := node])
  }

  function WithoutSubtree(nodes: Nodes, top: Path): Nodes {
    map p | p in nodes && !(top <= p) :: nodes[p]
  }

  /** The node at `source + suffix` moves to `destination + suffix`. */
  function MovedSubtree(nodes: Nodes, source: Path, destination: Path): Nodes {
    var moved := set p | p in nodes && source <= p :: destination + p[|source|..];
    assert forall p :: source <= p ==> source + (destination + p[|source|..])[|destination|..] == p;
    map q | q in moved :: nodes[source + q[|destination|..]]
  }

  function MoveSubtree(nodes: Nodes, source: Path, destination: Path): Nodes {
    WithoutSubtree(nodes, source) + MovedSubtree(nodes, source, destination)
  }

  function UpdateFile(nodes: Nodes, p: Path, size: int -> int): Result<Nodes, StepError> {
    if p !in nodes then Err(PathMissing)
    else if nodes[p].kind != FileNode then Err(NotRegularFile)
    else Ok(nodes[p := nodes[p].(size := size(nodes[p].size))])
  }

  function Step(nodes: Nodes, op: NormalOperation): Result<Nodes, StepError> {
    match op
    case CreateFile(path, _, data) => Create(nodes, path, Node(FileNode, |data|, {}))
    case CreateDir(path, _) => Create(nodes, path, Node(DirNode, 0, {}))
    case CreateSymlink(path, _) => Create(nodes, path, Node(SymlinkNode, 0, {}))
    case CreateHardlink(path, source) =>
      if source !in nodes then Err(SourceMissing)
      else if nodes[source].kind != FileNode then Err(NotRegularFile)
      else Create(nodes, path, Node(FileNode, nodes[source].size, nodes[source].xattrs))
    case Delete(path) =>
      if path !in nodes then Err(PathMissing)
      else if nodes[path].kind == DirNode then Ok(WithoutSubtree(nodes, path))
      else Ok(nodes - {path})
    case Rename(source, destination) =>
      if source !in nodes then Err(PathMissing)
      else if destination in nodes then Err(AlreadyExists)
      else if !HasParentDirectory(nodes, destination) then Err(ParentMissing)
      else if nodes[source].kind == DirNode && Below(destination, source) then Err(DestinationInsideSource)
      else if nodes[source].kind != DirNode then Ok((nodes - {source})[destination := nodes[source]])
      else Ok(MoveSubtree(nodes, source, destination))
    case Chmod(path, _) => if path !in nodes then Err(PathMissing) else Ok(nodes)
    case Chown(path, _, _) => if path !in nodes then Err(PathMissing) else Ok(nodes)
    case Truncate(path, size) => UpdateFile(nodes, path, _ => size)
    case Append(path, data) => UpdateFile(nodes, path, size => size + |data|)
    case OverwriteRange(path, offset, data) =>
      UpdateFile(nodes, path, size => if offset + |data| > size then offset + |data| else size)
    case SetXAttr(path, name, _) =>
      if path !in nodes then Err(PathMissing)
      else if ValidateXAttrName(name).Err? then Err(XAttrNameInvalid)
      else Ok(nodes[path := nodes[path].(xattrs := nodes[path].xattrs + {name})])
    case RemoveXAttr(path, name) =>
      if path !in nodes then Err(PathMissing)
      else if ValidateXAttrName(name).Err? then Err(XAttrNameInvalid)
      else if name !in nodes[path].xattrs then Err(XAttrMissing)
      else Ok(nodes[path := nodes[path].(xattrs := nodes[path].xattrs - {name})])
    case UnknownKind(_, _) => Err(KindUnsupported)
  }

  /** A run: accepted operations step the tree, rejected ones leave it as it was. */
  function Run(nodes: Nodes, ops: seq<NormalOperation>): Nodes
    decreases ops
  {
    if ops == [] then nodes
    else
      var next := Step(nodes, ops[0]);
      Run(if next.Ok? then next.value else nodes, ops[1..])
  }

  // ---------------------------------------------------------------- the tree invariant

  predicate NodeInTree(nodes: Nodes, p: Path)
    requires p in nodes
  {
    Canonical(p) && nodes[p].size >= 0 && (p != [] ==> HasParentDirectory(nodes, p))
  }

  ghost predicate Tree(nodes: Nodes) {
    && [] in nodes && nodes[[]].kind == DirNode
    && forall p :: p in nodes ==> NodeInTree(nodes, p)
  }

  /** Every ancestor of a node is a directory node. */
  lemma {:induction false} AncestorsAreDirectories(nodes: Nodes, p: Path, q: Path)
    requires Tree(nodes) && p in nodes && q < p
    ensures q in nodes && nodes[q].kind == DirNode
    decreases |p|
  {
    assert NodeInTree(nodes, p);
    if q != Parent(p) {
      assert q < Parent(p);
      AncestorsAreDirectories(nodes, Parent(p), q);
    }
  }

  /** A path that is absent has nothing below it. */
  lemma AbsentSubtree(nodes: Nodes, top: Path)
    requires Tree(nodes) && top !in nodes
    ensures forall p :: p in nodes ==> !(top <= p)
  {
    forall p | p in nodes && top <= p ensures false {
      if top != p { AncestorsAreDirectories(nodes, p, top); }
    }
  }

  /** Only directories have anything below them. */
  lemma LeafSubtree(nodes: Nodes, top: Path)
    requires Tree(nodes) && top in nodes && nodes[top].kind != DirNode
    ensures forall p :: p in nodes && top <= p ==> p == top
  {
    forall p | p in nodes && top <= p ensures p == top {
      if top != p { AncestorsAreDirectories(nodes, p, top); }
    }
  }

  lemma CreateKeepsTree(nodes: Nodes, p: Path, node: Node)
    requires Tree(nodes) && Canonical(p) && node.size >= 0 && Create(nodes, p, node).Ok?
    ensures Tree(Create(nodes, p, node).value)
  {
    var next := Create(nodes, p, node).value;
    forall q | q in next ensures NodeInTree(next, q) {
      if q != p { assert NodeInTree(nodes, q); }
    }
  }

  lemma RemoveKeepsTree(nodes: Nodes, top: Path)
    requires Tree(nodes) && top != []
    ensures Tree(WithoutSubtree(nodes, top))
  {
    var next := WithoutSubtree(nodes, top);
    forall q | q in next ensures NodeInTree(next, q) {
      assert NodeInTree(nodes, q);
      assert q != [] ==> Parent(q) <= q;
    }
  }

  /** Replacing a node by one of the same kind keeps the tree. */
  lemma UpdateKeepsTree(nodes: Nodes, p: Path, node: Node)
    requires Tree(nodes) && p in nodes && node.kind == nodes[p].kind && node.size >= 0
    ensures Tree(nodes[p := node])
  {
    var next := nodes[p := node];
    forall q | q in next ensures NodeInTree(next, q) { assert NodeInTree(nodes, q); }
  }

  /** A leaf is its own subtree, so moving or deleting it is the general case. */
  lemma LeafIsSubtree(nodes: Nodes, source: Path, destination: Path)
    requires Tree(nodes) && source in nodes && nodes[source].kind != DirNode
    ensures WithoutSubtree(nodes, source) == nodes - {source}
    ensures MoveSubtree(nodes, source, destination) == (nodes - {source})[destination := nodes[source]]
  {
    LeafSubtree(nodes, source);
    assert destination + source[|source|..] == destination;
    assert source + destination[|destination|..] == source;
    assert MovedSubtree(nodes, source, destination).Keys == {destination};
  }

  /** Renames and deletions in one form, whatever the node kind. */
  lemma StepRename(nodes: Nodes, source: Path, destination: Path)
    requires Tree(nodes) && Step(nodes, Rename(source, destination)).Ok?
    ensures Step(nodes, Rename(source, destination)).value == MoveSubtree(nodes, source, destination)
    ensures source in nodes && destination !in nodes && HasParentDirectory(nodes, destination)
    ensures !(source <= destination) && !(destination <= source)
  {
    if nodes[source].kind != DirNode {
      LeafIsSubtree(nodes, source, destination);
      LeafSubtree(nodes, source);
      if source < destination {
        assert source <= Parent(destination);
      }
    }
    AbsentSubtree(nodes, destination);
  }

  /**
    A rename is a subtree bijection: what stood at `source + suffix` stands at
    `destination + suffix`, nothing remains below the source, nothing kept was below the
    destination, and everything else is untouched.
   */
  lemma RenameIsBijection(nodes: Nodes, source: Path, destination: Path)
    requires Tree(nodes) && Step(nodes, Rename(source, destination)).Ok?
    ensures var next := Step(nodes, Rename(source, destination)).value;
      && (forall suffix: Path :: destination + suffix in next <==> source + suffix in nodes)
      && (forall suffix: Path :: source + suffix in nodes ==>
            next[destination + suffix] == nodes[source + suffix])
      && (forall p :: p in next ==> !(source <= p))
      && (forall p :: p in nodes ==> !(destination <= p))
      && (forall p :: !(source <= p) && !(destination <= p) ==>
            (p in next <==> p in nodes) && (p in nodes ==> next[p] == nodes[p]))
  {
    StepRename(nodes, source, destination);
    AbsentSubtree(nodes, destination);
    var next := MoveSubtree(nodes, source, destination);
    forall suffix: Path
      ensures destination + suffix in next <==> source + suffix in nodes
      ensures source + suffix in nodes ==> next[destination + suffix] == nodes[source + suffix]
    {
      MoveAt(nodes, source, destination, suffix);
    }
    forall p | p in next ensures !(source <= p) {
      if p in MovedSubtree(nodes, source, destination) {
        assert destination <= p;
        PrefixesCompare(source, destination, p);
      }
    }
  }

  lemma PrefixesCompare(a: Path, b: Path, p: Path)
    requires !(a <= b) && !(b <= a)
    ensures !(a <= p && b <= p)
  {
    if a <= p && |a| <= |b| <= |p| {
      assert a == p[..|b|][..|a|];
    } else if b <= p && |b| <= |a| <= |p| {
      assert b == p[..|a|][..|b|];
    }
  }

  lemma MoveAt(nodes: Nodes, source: Path, destination: Path, suffix: Path)
    requires forall p :: p in nodes ==> !(destination <= p)
    ensures var next := MoveSubtree(nodes, source, destination);
      && (destination + suffix in next <==> source + suffix in nodes)
      && (source + suffix in nodes ==> next[destination + suffix] == nodes[source + suffix])
  {
    var from, to := source + suffix, destination + suffix;
    assert destination <= to && source <= from;
    assert from[|source|..] == suffix && to[|destination|..] == suffix;
    if from in nodes {
      assert to in MovedSubtree(nodes, source, destination);
    }
    if to in MoveSubtree(nodes, source, destination) {
      var p :| p in nodes && source <= p && to == destination + p[|source|..];
      assert p[|source|..] == to[|destination|..] == suffix;
      assert p == source + p[|source|..];
    }
  }

  /** Every moved key comes from below the source. */
  lemma MovedFrom(nodes: Nodes, source: Path, destination: Path, q: Path)
    requires q in MovedSubtree(nodes, source, destination)
    ensures destination <= q && source + q[|destination|..] in nodes
    ensures MovedSubtree(nodes, source, destination)[q] == nodes[source + q[|destination|..]]
  {
    var p :| p in nodes && source <= p && q == destination + p[|source|..];
    assert q[|destination|..] == p[|source|..];
    assert source + p[|source|..] == p;
  }

  lemma RenameKeepsTree(nodes: Nodes, source: Path, destination: Path)
    requires Tree(nodes) && Canonical(destination) && source != []
    requires Step(nodes, Rename(source, destination)).Ok?
    ensures Tree(Step(nodes, Rename(source, destination)).value)
  {
    RenameIsBijection(nodes, source, destination);
    StepRename(nodes, source, destination);
    var next := Step(nodes, Rename(source, destination)).value;
    forall q | q in next ensures NodeInTree(next, q) {
      if destination <= q {
        var suffix := q[|destination|..];
        assert q == destination + suffix;
        MovedNodeInTree(nodes, next, source, destination, suffix);
      } else {
        assert NodeInTree(nodes, q);
        if q != [] { OutsideParent(source, destination, q); }
      }
    }
  }

  lemma OutsideParent(source: Path, destination: Path, q: Path)
    requires q != [] && !(source <= q) && !(destination <= q)
    ensures !(source <= Parent(q)) && !(destination <= Parent(q))
  {
    assert Parent(q) <= q;
  }

  /** A moved node's parent moved with it, or is the destination's parent. */
  lemma MovedNodeInTree(nodes: Nodes, next: Nodes, source: Path, destination: Path, suffix: Path)
    requires Tree(nodes) && Canonical(destination) && source != [] && destination + suffix in next
    requires HasParentDirectory(nodes, destination) && !(source <= destination) && destination != []
    requires forall t: Path :: destination + t in next <==> source + t in nodes
    requires forall t: Path :: source + t in nodes ==> next[destination + t] == nodes[source + t]
    requires forall p :: !(source <= p) && !(destination <= p) ==>
               (p in next <==> p in nodes) && (p in nodes ==> next[p] == nodes[p])
    ensures NodeInTree(next, destination + suffix)
  {
    hide ValidName;
    var q, p := destination + suffix, source + suffix;
    assert NodeInTree(nodes, p);
    CanonicalSuffix(source, destination, suffix);
    if suffix == [] {
      assert q == destination;
      var up := Parent(destination);
      assert !(destination <= up) && (source <= up ==> source <= destination);
    } else {
      var up := Parent(suffix);
      assert Parent(q) == destination + up && Parent(p) == source + up;
    }
  }

  lemma CanonicalSuffix(source: Path, destination: Path, suffix: Path)
    requires Canonical(source + suffix) && Canonical(destination)
    ensures Canonical(destination + suffix)
  {
    forall i | 0 <= i < |suffix| ensures ValidName(suffix[i]) {
      assert suffix[i] == (source + suffix)[|source| + i];
    }
  }

  /** The checks a rename back will make. */
  lemma RenameBackChecks(nodes: Nodes, source: Path, destination: Path)
    requires Tree(nodes) && source in nodes && source != [] && destination !in nodes
    requires !(source <= destination) && !(destination <= source)
    ensures var next := MoveSubtree(nodes, source, destination);
      destination in next && source !in next && HasParentDirectory(next, source)
  {
    AbsentSubtree(nodes, destination);
    MoveAt(nodes, source, destination, []);
    assert source + [] == source && destination + [] == destination;
    assert NodeInTree(nodes, source);
    OutsideUntouched(nodes, source, destination, Parent(source));
  }

  lemma RenameAccepted(nodes: Nodes, source: Path, destination: Path)
    requires source in nodes && destination !in nodes && HasParentDirectory(nodes, destination)
    requires !Below(destination, source)
    ensures Step(nodes, Rename(source, destination)).Ok?
  {
  }

  lemma RenameBackAccepted(nodes: Nodes, source: Path, destination: Path)
    requires Tree(nodes) && Step(nodes, Rename(source, destination)).Ok?
    requires source != []
    ensures Step(Step(nodes, Rename(source, destination)).value, Rename(destination, source)).Ok?
  {
    StepRename(nodes, source, destination);
    RenameBackChecks(nodes, source, destination);
    RenameAccepted(MoveSubtree(nodes, source, destination), destination, source);
  }

  lemma OutsideUntouched(nodes: Nodes, source: Path, destination: Path, p: Path)
    requires !(source <= p) && !(destination <= p)
    ensures var next := MoveSubtree(nodes, source, destination);
      (p in next <==> p in nodes) && (p in nodes ==> next[p] == nodes[p])
  {
  }

  /** Renaming back restores the exact map. */
  lemma RenameBackRestores(nodes: Nodes, source: Path, destination: Path)
    requires Tree(nodes) && Step(nodes, Rename(source, destination)).Ok?
    requires source != [] && Canonical(destination)
    ensures Step(Step(nodes, Rename(source, destination)).value, Rename(destination, source)) == Ok(nodes)
  {
    RenameKeepsTree(nodes, source, destination);
    RenameBackAccepted(nodes, source, destination);
    var next := Step(nodes, Rename(source, destination)).value;
    var back := Step(next, Rename(destination, source)).value;
    forall p ensures p in back <==> p in nodes
      ensures p in nodes ==> back[p] == nodes[p]
    {
      ThereAndBackAt(nodes, next, back, source, destination, p);
    }
    assert back == nodes;
  }

  lemma ThereAndBackAt(nodes: Nodes, next: Nodes, back: Nodes, source: Path, destination: Path, p: Path)
    requires Tree(nodes) && Step(nodes, Rename(source, destination)) == Ok(next)
    requires Tree(next) && Step(next, Rename(destination, source)) == Ok(back)
    ensures p in back <==> p in nodes
    ensures p in nodes ==> back[p] == nodes[p]
  {
    RenameIsBijection(nodes, source, destination);
    RenameIsBijection(next, destination, source);
    if source <= p {
      var suffix := p[|source|..];
      assert p == source + suffix;
      assert p in back <==> destination + suffix in next;
    } else if destination <= p {
    }
  }

  // ---------------------------------------------------------------- steps and runs

  /** Every accepted operation keeps the tree. */
  lemma StepKeepsTree(nodes: Nodes, op: NormalOperation)
    requires Tree(nodes) && WellFormed(op) && Step(nodes, op).Ok?
    ensures Tree(Step(nodes, op).value)
  {
    match op
    case CreateFile(path, _, data) => CreateKeepsTree(nodes, path, Node(FileNode, |data|, {}));
    case CreateDir(path, _) => CreateKeepsTree(nodes, path, Node(DirNode, 0, {}));
    case CreateSymlink(path, _) => CreateKeepsTree(nodes, path, Node(SymlinkNode, 0, {}));
    case CreateHardlink(path, source) =>
      assert NodeInTree(nodes, source);
      CreateKeepsTree(nodes, path, Node(FileNode, nodes[source].size, nodes[source].xattrs));
    case Delete(path) =>
      RemoveKeepsTree(nodes, path);
      if nodes[path].kind != DirNode { LeafIsSubtree(nodes, path, path); }
    case Rename(source, destination) => RenameKeepsTree(nodes, source, destination);
    case Chmod(_, _) =>
    case Chown(_, _, _) =>
    case Truncate(path, size) => UpdateKeepsTree(nodes, path, nodes[path].(size := size));
    case Append(path, data) =>
      assert NodeInTree(nodes, path);
      UpdateKeepsTree(nodes, path, nodes[path].(size := nodes[path].size + |data|));
    case OverwriteRange(path, offset, data) =>
      assert NodeInTree(nodes, path);
      UpdateKeepsTree(nodes, path, Step(nodes, op).value[path]);
    case SetXAttr(path, name, _) =>
      assert NodeInTree(nodes, path);
      UpdateKeepsTree(nodes, path, Step(nodes, op).value[path]);
    case RemoveXAttr(path, name) =>
      assert NodeInTree(nodes, path);
      UpdateKeepsTree(nodes, path, Step(nodes, op).value[path]);
  }

  /** The tree invariant holds after every run from every tree. */
  lemma {:induction false} RunKeepsTree(nodes: Nodes, ops: seq<NormalOperation>)
    requires Tree(nodes) && forall i :: 0 <= i < |ops| ==> WellFormed(ops[i])
    ensures Tree(Run(nodes, ops))
    decreases ops
  {
    if ops != [] {
      if Step(nodes, ops[0]).Ok? { StepKeepsTree(nodes, ops[0]); }
      var next := Step(nodes, ops[0]);
      RunKeepsTree(if next.Ok? then next.value else nodes, ops[1..]);
    }
  }

  /** Creating a node and deleting it again is the identity. */
  lemma CreateThenDelete(nodes: Nodes, op: NormalOperation)
    requires Tree(nodes) && (op.CreateFile? || op.CreateDir? || op.CreateSymlink? || op.CreateHardlink?)
    requires Step(nodes, op).Ok?
    ensures Step(Step(nodes, op).value, Delete(op.path)) == Ok(nodes)
  {
    AbsentSubtree(nodes, op.path);
    var node := Step(nodes, op).value[op.path];
    assert Step(nodes, op).value == nodes[op.path := node];
    CreatedThenRemoved(nodes, op.path, node);
  }

  lemma CreatedThenRemoved(nodes: Nodes, p: Path, node: Node)
    requires forall q :: q in nodes ==> !(p <= q)
    ensures nodes[p := node] - {p} == nodes
    ensures WithoutSubtree(nodes[p := node], p) == nodes
  {
    assert p !in nodes;
  }
}
