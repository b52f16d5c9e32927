/**
  mutate.go's `scanMutationState`: the virtual tree read off the real one. With it the promise of
  the mutation engine can be said from end to end: scan, generate, export, replay.
 */
module Baseline {
  import opened Wrappers
  import opened Paths
  import opened Operations
  import VT = VirtualTree
  import opened FileSystem
  import opened Simulation
  import opened Faults
  import opened MutationState
  import opened Generation
  import opened Execution

  /** The node an inode is seen as; special files are left out of the virtual tree. */
  function NodeFor(inode: Inode): Option<VT.Node> {
    match inode
    case SymlinkInode(meta, _) => Some(VT.Node(VT.SymlinkNode, 0, meta.xattrs.Keys))
    case DirInode(meta) => Some(VT.Node(VT.DirNode, 0, meta.xattrs.Keys))
    case FileInode(meta, data) => Some(VT.Node(VT.FileNode, |data|, meta.xattrs.Keys))
    case SpecialInode(_, _, _, _) => None
  }

  const ROOT_NODE := VT.Node(VT.DirNode, 0, {})

  /** What the first paths of the walk contribute. */
  ghost predicate ScannedFrom(fs: Fs, visited: seq<Path>, nodes: VT.Nodes) {
    && [] in nodes && nodes[[]] == ROOT_NODE
    && (forall p :: p in nodes ==> p == [] || (p in visited && Exists(fs, p) && NodeFor(At(fs, p)) == Some(nodes[p])))
    && (forall p :: p in visited && Exists(fs, p) && NodeFor(At(fs, p)).Some? ==> p in nodes)
  }

  /** The walk may read directories in any order. */
  method ScanMutationState(fs: Fs, walk: seq<Path>) returns (nodes: VT.Nodes)
    requires Stored(fs) && forall p :: p in walk <==> p in fs.tree
    ensures ScannedFrom(fs, walk, nodes)
  {
    nodes := map[[] := ROOT_NODE];
    for i := 0 to |walk|
      invariant ScannedFrom(fs, walk[..i], nodes)
    {
      var p := walk[i];
      assert p in walk && walk[..i + 1] == walk[..i] + [p];
      if p == [] { continue; }
      var node := NodeFor(At(fs, p));
      if node.Some? {
        nodes := nodes[p := node.value];
      }
    }
    assert walk[..|walk|] == walk;
  }

  /** A tree of directories, symbolic links and regular files; files may have several names. */
  ghost predicate PlainTree(fs: Fs) {
    && Stored(fs) && SingleDirs(fs) && IsDir(fs, [])
    && forall p :: p in fs.tree ==> Canonical(p) && !At(fs, p).SpecialInode? && (p != [] ==> IsDir(fs, Parent(p)))
  }

  /** The scanned tree mirrors the real one. */
  lemma ScanSimulates(fs: Fs, walk: seq<Path>, nodes: VT.Nodes)
    requires PlainTree(fs) && (forall p :: p in walk <==> p in fs.tree) && ScannedFrom(fs, walk, nodes)
    ensures Simulates(nodes, fs)
  {
    forall p ensures p in nodes <==> p in fs.tree {
      if p in fs.tree { assert p in walk && NodeFor(At(fs, p)).Some?; }
    }
    forall p | p in nodes ensures Matches(p, nodes[p], At(fs, p)) {
    }
    forall p | p in nodes ensures VT.NodeInTree(nodes, p) {
      if p != [] { assert Parent(p) in nodes; }
    }
  }

  /**
    From end to end. Over every plain tree and for every draw, a stream generated from its scan
    agrees with the real tree after each step exactly when no operation leaves a second name of
    its inode behind, and then replays from its exported form on that very tree without error.
    Without hard links that is always so.
   */
  method GenerateForTree(glob: Glob, fs: Fs, walk: seq<Path>, count: int, maxDataSize: int, kinds: seq<Kind>, uid: int, gid: int)
      returns (nodes: VT.Nodes, result: Result<seq<NormalOperation>, GenerateError>)
    requires PlainTree(fs) && forall p :: p in walk <==> p in fs.tree
    ensures Simulates(nodes, fs)
    ensures result.Ok? ==> |result.value| == count && GoodStream(nodes, result.value, kinds)
    ensures result.Ok? ==> ConfiguredStream(nodes, result.value, maxDataSize, uid, gid)
    ensures result.Err? && result.error.NormalizeFailed? ==> !XAttrsNamed(nodes)
    ensures result.Err? && result.error.PlanFailed? ==>
      result.error.index < count && StoppedAt(nodes, kinds, result.error.index, result.error.plan, uid >= 0 && gid >= 0)
    ensures result.Err? && result.error.InvalidOptions? <==> !ValidOptions(count, maxDataSize, kinds)
    ensures ValidOptions(count, maxDataSize, kinds) && CannotStop(nodes, kinds) ==> result.Ok?
    ensures result.Ok? && TrackedKinds(nodes, kinds) ==>
      ((forall k :: 0 <= k <= count ==> PrefixAgrees(nodes, fs, result.value, k))
       <==> (forall k :: 0 <= k < count ==> !DisturbedAt(nodes, fs, result.value, k)))
    ensures result.Ok? && TrackedKinds(nodes, kinds) && (forall k :: 0 <= k < count ==> !DisturbedAt(nodes, fs, result.value, k)) ==>
      RealRun(fs, result.value).Ok?
      && Replay(glob, fs, [], RenderAll(result.value), 0) == (RealRun(fs, result.value).value, Completed)
    ensures result.Ok? && TrackedKinds(nodes, kinds) && Unshared(fs) && KCreateHardlink !in kinds ==>
      forall k :: 0 <= k < count ==> !DisturbedAt(nodes, fs, result.value, k)
  {
    nodes := ScanMutationState(fs, walk);
    ScanSimulates(fs, walk, nodes);
    SimulatedTree(nodes, fs);
    hide Simulates, TrackedKinds, GoodStream, PlainTree, ScannedFrom, PrefixAgrees, DisturbedAt, RealRun, Replay, Unshared, ValidOptions, CannotStop, StoppedAt,
      XAttrsNamed, ConfiguredStream;
    result := GenerateOperations(nodes, count, maxDataSize, kinds, uid, gid);
    if result.Ok? && TrackedKinds(nodes, kinds) {
      GeneratedStreamReplays(glob, nodes, fs, result.value, kinds);
    }
  }
}
