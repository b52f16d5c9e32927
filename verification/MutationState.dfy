/**
  mutate.go's `mutationState`: the virtual tree as an object updated in place, with its name
  counter and its four lazily rebuilt indexes, and the planner that draws operations from it.
 */
module MutationState {
  import opened Wrappers
  import opened Strings
  import opened Sorting
  import opened Paths
  import opened Operations
  import opened VirtualTree
  import opened MutationNames
  import opened Draws

  const MAX_MUTATION_RETRIES := 128

  datatype PlanError =
    | Preconditions
    | CollisionExhausted
    | RenameDestinationExhausted
    | UnsupportedKind

  // ---------------------------------------------------------------- indexes

  ghost predicate IsIndex(s: seq<Path>, keys: set<Path>) {
    Enumerates(s, keys) && Sorted(PathLeq, s)
  }

  /** Sorting a listing of paths gives their index. */
  lemma SortedListingIsIndex(s: seq<Path>, keys: set<Path>)
    requires Enumerates(s, keys)
    ensures IsIndex(Sort(PathLeq, s), keys)
  {
    PathOrder();
    SortIsSorted(PathLeq, s);
    SortMembers(PathLeq, s);
    DistinctCounts(s);
    DistinctCounts(Sort(PathLeq, s));
  }

  /** An index is determined by its keys. */
  lemma IndexUnique(a: seq<Path>, b: seq<Path>, keys: set<Path>)
    requires IsIndex(a, keys) && IsIndex(b, keys) && forall p :: p in keys ==> Canonical(p)
    ensures a == b
  {
    PathOrder();
    PathsSeparate(a);
    DistinctCounts(a);
    DistinctCounts(b);
    forall p ensures multiset(a)[p] == multiset(b)[p] {
      assert p in multiset(a) <==> p in a;
      assert p in multiset(b) <==> p in b;
    }
    SortedUnique(PathLeq, a, b);
  }

  /** The root, when indexed, comes first. */
  lemma RootIsFirst(s: seq<Path>, keys: set<Path>)
    requires IsIndex(s, keys) && [] in keys && forall p :: p in keys ==> Canonical(p)
    ensures s != [] && s[0] == []
  {
    var i :| 0 <= i < |s| && s[i] == [];
    if i > 0 {
      RootFirst(s[0]);
      LeqTotal(Render(s[0]), Render([]));
      RenderInjective(s[0], []);
    }
  }

  /** The root taken off an index. */
  lemma IndexTail(s: seq<Path>, keys: set<Path>)
    requires IsIndex(s, keys) && s != [] && s[0] == []
    ensures IsIndex(s[1..], keys - {[]})
  {
    hide PathLeq;
  }

  lemma EmptyIndex(s: seq<Path>, keys: set<Path>)
    requires IsIndex(s, keys)
    ensures s == [] <==> keys == {}
  {
    if s != [] { assert s[0] in keys; }
    if keys != {} {
      var p :| p in keys;
      assert p in s;
    }
  }

  lemma NoneBelowRoot(nodes: Nodes)
    ensures nodes.Keys - {[]} == {} <==> nodes.Keys <= {[]}
  {
    if nodes.Keys - {[]} == {} {
      assert forall p :: p in nodes.Keys ==> p == [] || p in nodes.Keys - {[]};
    }
  }

  function OfKind(nodes: Nodes, kind: NodeType): set<Path> {
    set p | p in nodes && nodes[p].kind == kind
  }

  function WithXAttrs(nodes: Nodes): set<Path> {
    set p | p in nodes && nodes[p].xattrs != {}
  }

  /** Extended attribute names read from the baseline carry a namespace, as the kernel demands. */
  ghost predicate XAttrsNamed(nodes: Nodes) {
    forall p :: p in nodes ==> NamesValid(nodes[p].xattrs)
  }

  ghost predicate NamesValid(names: set<string>) {
    forall name :: name in names ==> ValidateXAttrName(name).Ok?
  }

  /** Accepted steps keep attribute names valid. */
  lemma StepKeepsXAttrsNamed(nodes: Nodes, op: NormalOperation)
    requires Tree(nodes) && XAttrsNamed(nodes) && WellFormed(op) && Step(nodes, op).Ok?
    ensures XAttrsNamed(Step(nodes, op).value)
  {
    match op
    case Rename(source, destination) =>
      StepRename(nodes, source, destination);
      MoveKeepsXAttrsNamed(nodes, source, destination);
    case CreateHardlink(path, source) => assert NamesValid(nodes[source].xattrs);
    case SetXAttr(path, name, _) => assert NamesValid(nodes[path].xattrs + {name});
    case RemoveXAttr(path, name) => assert NamesValid(nodes[path].xattrs - {name});
    case _ =>
  }

  lemma MoveKeepsXAttrsNamed(nodes: Nodes, source: Path, destination: Path)
    requires XAttrsNamed(nodes)
    ensures XAttrsNamed(MoveSubtree(nodes, source, destination))
  {
    var next := MoveSubtree(nodes, source, destination);
    forall p | p in next ensures NamesValid(next[p].xattrs) {
      if p in MovedSubtree(nodes, source, destination) {
        MovedFrom(nodes, source, destination, p);
      }
    }
  }

  /**
    What a planned operation promises: it is of the requested kind, normalisation leaves it
    alone, the virtual tree accepts it, any name it introduces is numbered below the counter,
    an overwrite stays inside its file, and a relative link leads to an existing node.
   */
  ghost predicate GoodPlan(nodes: Nodes, kind: Kind, op: NormalOperation, counter: nat) {
    && KindOf(op) == kind
    && (if op.RemoveXAttr? then Canonical(op.path) && op.path in nodes && op.xattrName in nodes[op.path].xattrs
        else WellFormed(op))
    && (WellFormed(op) ==> Step(nodes, op).Ok?)
    && (Introduced(op) != [] ==> IntroducesUsedName(op, counter))
    && (op.OverwriteRange? ==> Step(nodes, op) == Ok(nodes))
    && (op.CreateSymlink? ==> op.path != [] && Walk(Parent(op.path), Split(op.linkTarget, '/')) in nodes)
  }

  /** Permission bits with read and write for the owner, and with all three. */
  predicate FilePermissions(mode: nat) { mode < 512 && mode / 64 >= 6 }

  predicate DirPermissions(mode: nat) { mode < 512 && mode / 64 == 7 }

  /** As long as asked for at most, but one byte at least. */
  predicate DataFits(data: seq<Byte>, maxDataSize: int) {
    1 <= |data| && (|data| <= maxDataSize || |data| == 1)
  }

  /** What a planned operation takes from the options and the process. */
  predicate AsConfigured(nodes: Nodes, op: NormalOperation, maxDataSize: int, uid: int, gid: int) {
    match op
    case CreateFile(_, mode, data) => FilePermissions(mode) && DataFits(data, maxDataSize)
    case CreateDir(_, mode) => DirPermissions(mode)
    case Delete(p) => p != []
    case Rename(p, _) => p != []
    case Chmod(p, mode) => p != [] && p in nodes && if nodes[p].kind == DirNode then DirPermissions(mode) else FilePermissions(mode)
    case Chown(p, owner, group) => p != [] && owner == uid && group == gid
    case Truncate(p, size) => p in nodes && 0 <= size && (size <= maxDataSize || size <= nodes[p].size)
    case Append(_, data) => DataFits(data, maxDataSize)
    case OverwriteRange(_, _, data) => DataFits(data, maxDataSize)
    case SetXAttr(_, _, value) => DataFits(value, maxDataSize)
    case _ => true
  }

  ghost predicate IntroducesUsedName(op: NormalOperation, counter: nat) {
    Introduced(op) != [] && exists number: nat :: number < counter && Carries(Last(Introduced(op)), number)
  }

  /** A path planUniquePath returns. */
  ghost predicate FreshPath(nodes: Nodes, p: Path, counter: nat) {
    && p !in nodes && p != [] && Canonical(p) && HasParentDirectory(nodes, p)
    && counter > 0 && Carries(Last(p), counter - 1)
  }

  lemma FreshBelowRoot(nodes: Nodes, p: Path, counter: nat)
    requires FreshPath(nodes, p, counter)
    ensures p != []
  {
  }

  /** A generated name in a directory is either fresh or shows its number to be taken. */
  lemma FreshOrTaken(nodes: Nodes, parent: Path, name: string, number: nat)
    requires Tree(nodes) && parent in nodes && nodes[parent].kind == DirNode
    requires Carries(name, number) && ValidName(name)
    ensures if parent + [name] in nodes then Taken(nodes, number)
            else FreshPath(nodes, parent + [name], number + 1)
  {
    assert NodeInTree(nodes, parent);
    var p := parent + [name];
    assert Last(p) == name && Parent(p) == parent;
  }

  lemma FreshIsUsedName(nodes: Nodes, op: NormalOperation, counter: nat)
    requires FreshPath(nodes, Introduced(op), counter)
    ensures IntroducesUsedName(op, counter)
  {
    var number: nat := counter - 1;
    assert number < counter && Carries(Last(Introduced(op)), number);
  }

  lemma GoodCreate(nodes: Nodes, op: NormalOperation, counter: nat)
    requires Tree(nodes) && FreshPath(nodes, op.path, counter)
    requires op.CreateFile? || op.CreateDir?
    requires op.mode <= MAX_POSIX_FILE_MODE
    ensures GoodPlan(nodes, KindOf(op), op, counter)
  {
    hide ValidateXAttrName, ValidName, Taken, Carries;
    FreshIsUsedName(nodes, op, counter);
  }

  /** Kinds that change or remove an existing node. */
  lemma GoodOnExisting(nodes: Nodes, op: NormalOperation, counter: nat)
    requires Tree(nodes) && op.path in nodes && op.path != []
    requires
      || op.Delete?
      || (op.Chmod? && op.mode <= MAX_POSIX_FILE_MODE)
      || (op.Chown? && op.uid >= 0 && op.gid >= 0)
      || (op.Truncate? && op.size >= 0 && nodes[op.path].kind == FileNode)
      || (op.Append? && op.data != [] && nodes[op.path].kind == FileNode)
    ensures GoodPlan(nodes, KindOf(op), op, counter)
  {
    hide ValidateXAttrName, ValidName, Taken, Carries;
    assert NodeInTree(nodes, op.path);
  }

  lemma GoodCreateSymlink(nodes: Nodes, p: Path, target: Path, counter: nat)
    requires Tree(nodes) && FreshPath(nodes, p, counter) && target in nodes
    ensures GoodPlan(nodes, KCreateSymlink, CreateSymlink(p, RelString(Parent(p), target)), counter)
  {
    hide ValidateXAttrName, ValidName, Taken, Carries;
    assert NodeInTree(nodes, target);
    RelStringResolves(Parent(p), target);
    FreshIsUsedName(nodes, CreateSymlink(p, RelString(Parent(p), target)), counter);
  }

  lemma GoodCreateHardlink(nodes: Nodes, p: Path, source: Path, counter: nat)
    requires Tree(nodes) && FreshPath(nodes, p, counter)
    requires source in nodes && nodes[source].kind == FileNode
    ensures GoodPlan(nodes, KCreateHardlink, CreateHardlink(p, source), counter)
  {
    hide ValidateXAttrName, ValidName, Taken, Carries;
    assert NodeInTree(nodes, source);
    FreshIsUsedName(nodes, CreateHardlink(p, source), counter);
  }

  lemma GoodRename(nodes: Nodes, source: Path, destination: Path, counter: nat)
    requires Tree(nodes) && FreshPath(nodes, destination, counter)
    requires source in nodes && source != []
    requires nodes[source].kind == DirNode ==> !Below(destination, source)
    ensures GoodPlan(nodes, KRename, Rename(source, destination), counter)
  {
    hide ValidateXAttrName, ValidName, Taken, Carries;
    assert NodeInTree(nodes, source);
    FreshIsUsedName(nodes, Rename(source, destination), counter);
  }

  lemma GoodOverwrite(nodes: Nodes, p: Path, offset: nat, data: seq<Byte>, counter: nat)
    requires Tree(nodes) && p in nodes && nodes[p].kind == FileNode
    requires data != [] && offset + |data| <= nodes[p].size
    ensures GoodPlan(nodes, KOverwriteRange, OverwriteRange(p, offset, data), counter)
  {
    hide ValidateXAttrName, ValidName, Taken, Carries;
    assert NodeInTree(nodes, p);
    assert nodes[p := nodes[p].(size := nodes[p].size)] == nodes;
  }

  lemma GoodSetXAttr(nodes: Nodes, p: Path, draw: nat, value: seq<Byte>, counter: nat)
    requires Tree(nodes) && p in nodes
    ensures GoodPlan(nodes, KSetXAttr, SetXAttr(p, MutationXAttrName(draw), value), counter)
  {
    hide ValidateXAttrName, ValidName, Taken, Carries;
    assert NodeInTree(nodes, p);
    MutationXAttrNameValid(draw);
  }

  lemma GoodRemoveXAttr(nodes: Nodes, p: Path, name: string, counter: nat)
    requires Tree(nodes) && p in nodes && name in nodes[p].xattrs
    ensures GoodPlan(nodes, KRemoveXAttr, RemoveXAttr(p, name), counter)
  {
    hide ValidateXAttrName, ValidName, Taken, Carries;
    assert NodeInTree(nodes, p);
    if XAttrsNamed(nodes) { assert NamesValid(nodes[p].xattrs); }
  }

  /** Nothing to plan a kind on, whatever is drawn; `owned` says that the process has a uid and a gid. */
  ghost predicate Hopeless(nodes: Nodes, kind: Kind, owned: bool) {
    match kind
    case KCreateSymlink => nodes.Keys <= {[]}
    case KDelete => nodes.Keys <= {[]}
    case KRename => nodes.Keys <= {[]}
    case KChmod => nodes.Keys <= {[]}
    case KChown => nodes.Keys <= {[]} || !owned
    case KCreateHardlink => OfKind(nodes, FileNode) == {}
    case KTruncate => OfKind(nodes, FileNode) == {}
    case KAppend => OfKind(nodes, FileNode) == {}
    case KOverwriteRange => forall p :: p in OfKind(nodes, FileNode) ==> nodes[p].size <= 0
    case KRemoveXAttr => WithXAttrs(nodes) == {}
    case _ => false
  }

  /** Some draw finds nothing to plan a kind on: an overwrite may draw an empty file. */
  ghost predicate Unlucky(nodes: Nodes, kind: Kind, owned: bool) {
    Hopeless(nodes, kind, owned)
    || (kind == KOverwriteRange && exists p :: p in OfKind(nodes, FileNode) && nodes[p].size <= 0)
  }

  lemma OwnerMattersToChown(nodes: Nodes, owned: bool)
    ensures forall kind :: kind != KChown ==>
      (Hopeless(nodes, kind, true) <==> Hopeless(nodes, kind, owned)) && (Unlucky(nodes, kind, true) <==> Unlucky(nodes, kind, owned))
    ensures forall kind: Kind :: kind.KUnknown? ==> !Hopeless(nodes, kind, owned)
  {
  }

  /** A directory that a rename may draw. */
  ghost predicate HasInnerDirectory(nodes: Nodes) {
    exists p :: p in nodes && p != [] && nodes[p].kind == DirNode
  }

  /**
    Why planning may fail, with the counter going from `counter` to `later`: nothing to plan on;
    128 nodes with generated-style names; 128 destinations inside the directory to be renamed;
    an unknown kind.
   */
  ghost predicate FairFailure(nodes: Nodes, kind: Kind, error: PlanError, counter: nat, later: nat, owned: bool) {
    match error
    case Preconditions => Unlucky(nodes, kind, owned)
    case CollisionExhausted => exists start: nat :: start >= counter && Exhausted(nodes, start)
    case RenameDestinationExhausted => kind == KRename && HasInnerDirectory(nodes) && later >= counter + 128
    case UnsupportedKind => kind.KUnknown?
  }

  ghost predicate Exhausted(nodes: Nodes, start: nat) {
    |Bearers(nodes, start, start + 128)| >= 128
  }

  lemma DirectoriesListed(nodes: Nodes, dirs: seq<Path>)
    requires Tree(nodes) && IsIndex(dirs, OfKind(nodes, DirNode))
    ensures dirs != []
    ensures forall k :: 0 <= k < |dirs| ==> dirs[k] in nodes && nodes[dirs[k]].kind == DirNode
  {
    assert [] in OfKind(nodes, DirNode);
    assert forall k :: 0 <= k < |dirs| ==> dirs[k] in OfKind(nodes, DirNode);
  }

  /** What planUniquePath promises when the counter went from `start` to `counter`. */
  ghost predicate UniquePath(nodes: Nodes, result: Result<Path, PlanError>, start: nat, counter: nat) {
    && start < counter <= start + 128
    && (result.Ok? ==> FreshPath(nodes, result.value, counter))
    && (result.Err? ==> result.error == CollisionExhausted && Exhausted(nodes, start))
    && (UnusedFrom(nodes, start) ==> result.Ok? && counter == start + 1)
  }

  lemma FoundUniquePath(nodes: Nodes, p: Path, start: nat, counter: nat)
    requires FreshPath(nodes, p, counter) && start < counter <= start + MAX_MUTATION_RETRIES
    requires forall number: nat :: start <= number < counter - 1 ==> Taken(nodes, number)
    ensures UniquePath(nodes, Ok(p), start, counter)
  {
    hide FreshPath, Taken;
    if counter != start + 1 { assert Taken(nodes, start); }
  }

  lemma NoUniquePath(nodes: Nodes, start: nat, counter: nat)
    requires counter == start + MAX_MUTATION_RETRIES
    requires forall number: nat :: start <= number < counter ==> Taken(nodes, number)
    ensures UniquePath(nodes, Err(CollisionExhausted), start, counter)
  {
    hide FreshPath, Taken;
    assert Taken(nodes, start);
    AllTakenIsExhausted(nodes, start);
  }

  lemma AllTakenIsExhausted(nodes: Nodes, start: nat)
    requires forall number: nat :: start <= number < start + MAX_MUTATION_RETRIES ==> Taken(nodes, number)
    ensures Exhausted(nodes, start)
  {
    TakenNumbersNeedBearers(nodes, start, start + MAX_MUTATION_RETRIES);
  }

  lemma UnusedIsNotExhausted(nodes: Nodes, counter: nat)
    requires UnusedFrom(nodes, counter)
    ensures forall start: nat :: start >= counter ==> !Exhausted(nodes, start)
  {
    forall start: nat | start >= counter ensures !Exhausted(nodes, start) {
      forall p | p in nodes && p != []
        ensures p !in Bearers(nodes, start, start + MAX_MUTATION_RETRIES)
      {
        assert forall number: nat :: start <= number && Carries(Last(p), number) ==> Taken(nodes, number);
      }
      assert Bearers(nodes, start, start + MAX_MUTATION_RETRIES) == {};
    }
  }

  /** The cached indexes are the sorted, duplicate-free key sets of the map they were built from. */
  ghost predicate IndexesMatch(nodes: Nodes, all: seq<Path>, files: seq<Path>, dirs: seq<Path>, xattrs: seq<Path>) {
    && IsIndex(all, nodes.Keys)
    && IsIndex(files, OfKind(nodes, FileNode))
    && IsIndex(dirs, OfKind(nodes, DirNode))
    && IsIndex(xattrs, WithXAttrs(nodes))
  }

  /** Node `p` has been copied to its place below the destination. */
  ghost predicate Relocated(nodes: Nodes, updates: Nodes, source: Path, destination: Path, p: Path) {
    p in nodes && source <= p && destination + p[|source|..] in updates
    && updates[destination + p[|source|..]] == nodes[p]
  }

  lemma RelocatedKept(nodes: Nodes, updates: Nodes, source: Path, destination: Path, p: Path, path: Path)
    requires Relocated(nodes, updates, source, destination, p) && path in nodes && source <= path
    ensures Relocated(nodes, updates[destination + path[|source|..] := nodes[path]], source, destination, p)
  {
    var to, from := destination + p[|source|..], destination + path[|source|..];
    if to == from {
      assert p[|source|..] == to[|destination|..] == path[|source|..];
      assert p == source + p[|source|..] && path == source + path[|source|..];
    }
  }

  lemma CollectedIsMoved(nodes: Nodes, updates: Nodes, toDelete: seq<Path>, source: Path, destination: Path)
    requires forall p :: p in toDelete <==> p in nodes && source <= p
    requires forall p :: p in toDelete ==> Relocated(nodes, updates, source, destination, p)
    requires forall q :: q in updates ==> destination <= q && source + q[|destination|..] in toDelete
    ensures updates == MovedSubtree(nodes, source, destination)
  {
    var moved := MovedSubtree(nodes, source, destination);
    forall q | q in updates ensures q in moved && updates[q] == moved[q] {
      var p := source + q[|destination|..];
      assert p[|source|..] == q[|destination|..] && q == destination + p[|source|..];
      assert Relocated(nodes, updates, source, destination, p);
    }
    forall q | q in moved ensures q in updates {
      MovedFrom(nodes, source, destination, q);
      var p := source + q[|destination|..];
      assert p in toDelete && Relocated(nodes, updates, source, destination, p);
      assert p[|source|..] == q[|destination|..] && q == destination + p[|source|..];
    }
  }

  lemma GoodPlanKind(nodes: Nodes, kind: Kind, op: NormalOperation, counter: nat)
    requires GoodPlan(nodes, kind, op, counter)
    ensures KindOf(op) == kind
  {
  }

  lemma FairFailureFacts(nodes: Nodes, kind: Kind, error: PlanError, counter: nat, later: nat, owned: bool, start: nat)
    requires FairFailure(nodes, kind, error, counter, later, owned) && start <= counter
    ensures FairFailure(nodes, kind, error, start, later, owned) || error == RenameDestinationExhausted
    ensures UnusedFrom(nodes, start) ==> error != CollisionExhausted
    ensures error == Preconditions ==> Unlucky(nodes, kind, owned)
    ensures error == UnsupportedKind ==> kind.KUnknown?
    ensures error == RenameDestinationExhausted ==> kind == KRename && HasInnerDirectory(nodes) && later >= start + 128
  {
    hide Exhausted, UnusedFrom, Unlucky, HasInnerDirectory;
    if UnusedFrom(nodes, start) { UnusedIsNotExhausted(nodes, start); }
  }

  /** The k-th kind tried from a drawn start. */
  function Rotated(kinds: seq<Kind>, start: nat, k: nat): Kind
    requires kinds != []
  {
    kinds[(start + k) % |kinds|]
  }

  ghost predicate TriedBefore(kinds: seq<Kind>, start: nat, tried: nat, kind: Kind) {
    kinds != [] && exists k: nat :: k < tried && Rotated(kinds, start, k) == kind
  }

  /** Trying as many kinds as there are tries every kind. */
  lemma RotationCovers(kinds: seq<Kind>, start: nat, kind: Kind)
    requires start < |kinds| && kind in kinds
    ensures TriedBefore(kinds, start, |kinds|, kind)
  {
    var i :| 0 <= i < |kinds| && kinds[i] == kind;
    var k: nat := if i >= start then i - start else i + |kinds| - start;
    ModuloWraps(i, |kinds|);
    assert Rotated(kinds, start, k) == kind;
  }

  lemma ModuloWraps(i: nat, n: nat)
    requires i < n
    ensures i % n == i && (i + n) % n == i
  {
  }

  class MutationState {
    var nodes: Nodes
    var nameSeq: nat
    var indexAll: seq<Path>
    var indexFiles: seq<Path>
    var indexDirs: seq<Path>
    var indexXAttrs: seq<Path>
    var indexesValid: bool

    ghost predicate Valid()
      reads this
    {
      Tree(nodes) && (indexesValid ==> IndexesMatch(nodes, indexAll, indexFiles, indexDirs, indexXAttrs))
    }

    /** scanMutationState's result for a scanned baseline. */
    constructor (baseline: Nodes)
      requires Tree(baseline)
      ensures Valid() && nodes == baseline && nameSeq == 1 && !indexesValid
    {
      nodes, nameSeq, indexesValid := baseline, 1, false;
      indexAll, indexFiles, indexDirs, indexXAttrs := [], [], [], [];
    }

    method InvalidatePathIndexes()
      modifies this`indexesValid, this`indexAll, this`indexFiles, this`indexDirs, this`indexXAttrs
      ensures !indexesValid
    {
      indexesValid := false;
      indexAll, indexFiles, indexDirs, indexXAttrs := [], [], [], [];
    }

    method RebuildPathIndexes()
      requires Valid()
      modifies this`indexesValid, this`indexAll, this`indexFiles, this`indexDirs, this`indexXAttrs
      ensures Valid() && indexesValid
    {
      if indexesValid {
        return;
      }
      var all, files, dirs, xattrs := ListNodes();
      SortedListingIsIndex(all, nodes.Keys);
      SortedListingIsIndex(files, OfKind(nodes, FileNode));
      SortedListingIsIndex(dirs, OfKind(nodes, DirNode));
      SortedListingIsIndex(xattrs, WithXAttrs(nodes));
      indexAll := Sort(PathLeq, all);
      indexFiles := Sort(PathLeq, files);
      indexDirs := Sort(PathLeq, dirs);
      indexXAttrs := Sort(PathLeq, xattrs);
      indexesValid := true;
    }

    /** The pass over the node map, in whatever order the map yields its keys. */
    method ListNodes() returns (all: seq<Path>, files: seq<Path>, dirs: seq<Path>, xattrs: seq<Path>)
      ensures Enumerates(all, nodes.Keys)
      ensures Enumerates(files, OfKind(nodes, FileNode))
      ensures Enumerates(dirs, OfKind(nodes, DirNode))
      ensures Enumerates(xattrs, WithXAttrs(nodes))
    {
      all, files, dirs, xattrs := [], [], [], [];
      var rest := nodes.Keys;
      while rest != {}
        invariant rest <= nodes.Keys
        invariant Enumerates(all, nodes.Keys - rest)
        invariant Enumerates(files, OfKind(nodes, FileNode) - rest)
        invariant Enumerates(dirs, OfKind(nodes, DirNode) - rest)
        invariant Enumerates(xattrs, WithXAttrs(nodes) - rest)
        decreases rest
      {
        var path :| path in rest;
        rest := rest - {path};
        all := all + [path];
        match nodes[path].kind {
          case FileNode => files := files + [path];
          case DirNode => dirs := dirs + [path];
          case SymlinkNode =>
        }
        if nodes[path].xattrs != {} {
          xattrs := xattrs + [path];
        }
      }
    }

    /** sortedPaths(false): everything but the root. */
    method SortedPathsBelowRoot() returns (paths: seq<Path>)
      requires Valid()
      modifies this`indexesValid, this`indexAll, this`indexFiles, this`indexDirs, this`indexXAttrs
      ensures Valid() && indexesValid
      ensures IsIndex(paths, nodes.Keys - {[]})
    {
      RebuildPathIndexes();
      assert forall p :: p in nodes ==> NodeInTree(nodes, p);
      RootIsFirst(indexAll, nodes.Keys);
      IndexTail(indexAll, nodes.Keys);
      hide IsIndex, Tree;
      if |indexAll| > 0 && indexAll[0] == [] {
        return indexAll[1..];
      }
      return indexAll;
    }

    // -------------------------------------------------------------- planning

    method NextMutationName() returns (name: string)
      modifies this`nameSeq
      ensures Carries(name, old(nameSeq)) && ValidName(name) && nameSeq == old(nameSeq) + 1
    {
      var draw := Intn(256);
      name := GeneratedName(nameSeq, draw);
      GeneratedNameValid(nameSeq, draw);
      nameSeq := nameSeq + 1;
    }

    /** One attempt: a generated name in a drawn directory. */
    method DrawCandidate(dirs: seq<Path>) returns (candidate: Path)
      requires Tree(nodes) && dirs != []
      requires forall k :: 0 <= k < |dirs| ==> dirs[k] in nodes && nodes[dirs[k]].kind == DirNode
      modifies this`nameSeq
      ensures nameSeq == old(nameSeq) + 1
      ensures if candidate in nodes then Taken(nodes, old(nameSeq)) else FreshPath(nodes, candidate, nameSeq)
    {
      var k := Intn(|dirs|);
      var name := NextMutationName();
      FreshOrTaken(nodes, dirs[k], name, nameSeq - 1);
      candidate := dirs[k] + [name];   // path.Join: Paths.JoinAppends
    }

    /** The retry loop over drawn candidates. */
    method SearchUniquePath(dirs: seq<Path>) returns (result: Result<Path, PlanError>)
      requires Tree(nodes) && dirs != []
      requires forall k :: 0 <= k < |dirs| ==> dirs[k] in nodes && nodes[dirs[k]].kind == DirNode
      modifies this`nameSeq
      ensures UniquePath(nodes, result, old(nameSeq), nameSeq)
    {
      hide Tree, Taken, UniquePath, FreshPath;
      var attempt := 1;
      while attempt <= MAX_MUTATION_RETRIES
        invariant 1 <= attempt <= MAX_MUTATION_RETRIES + 1
        invariant nameSeq == old(nameSeq) + attempt - 1
        invariant forall number: nat :: old(nameSeq) <= number < nameSeq ==> Taken(nodes, number)
      {
        var candidate := DrawCandidate(dirs);
        attempt := attempt + 1;
        if candidate in nodes {
          continue;
        }
        FoundUniquePath(nodes, candidate, old(nameSeq), nameSeq);
        return Ok(candidate);
      }
      NoUniquePath(nodes, old(nameSeq), nameSeq);
      return Err(CollisionExhausted);
    }

    /**
      A path no node has. It fails only when 128 nodes already bear generated-style names, and
      when no node carries an unused number the first attempt succeeds.
     */
    method PlanUniquePath() returns (result: Result<Path, PlanError>)
      requires Valid()
      modifies this`nameSeq, this`indexesValid, this`indexAll, this`indexFiles, this`indexDirs, this`indexXAttrs
      ensures Valid() && UniquePath(nodes, result, old(nameSeq), nameSeq)
    {
      hide UniquePath;
      RebuildPathIndexes();
      DirectoriesListed(nodes, indexDirs);
      result := SearchUniquePath(indexDirs);
    }

    /** A good plan, or an error with its cause; and where there is a cause, the error. */
    ghost predicate Planned(kind: Kind, result: Result<NormalOperation, PlanError>, counter: nat, owned: bool)
      reads this
    {
      && counter <= nameSeq
      && (result.Ok? ==> GoodPlan(nodes, kind, result.value, nameSeq))
      && (result.Err? ==> FairFailure(nodes, kind, result.error, counter, nameSeq, owned))
      && (Hopeless(nodes, kind, owned) ==> result == Err(Preconditions))
      && (kind.KUnknown? ==> result == Err(UnsupportedKind))
    }

    method PlanCreateFile(maxDataSize: nat) returns (result: Result<NormalOperation, PlanError>)
      requires Valid()
      modifies this`nameSeq, this`indexesValid, this`indexAll, this`indexFiles, this`indexDirs, this`indexXAttrs
      ensures Valid() && Planned(KCreateFile, result, old(nameSeq), true)
      ensures result.Ok? ==> forall uid, gid :: AsConfigured(nodes, result.value, maxDataSize, uid, gid)
    {
      hide GoodPlan, FreshPath, UnusedFrom, Exhausted, IndexesMatch;
      var path := PlanUniquePath();
      if path.Err? { return Err(path.error); }
      var mode := RandomFileMode();
      var length := RandomDataLength(maxDataSize);
      var data := RandomBytes(length);
      GoodCreate(nodes, CreateFile(path.value, mode, data), nameSeq);
      result := Ok(CreateFile(path.value, mode, data));
    }

    method PlanCreateDir() returns (result: Result<NormalOperation, PlanError>)
      requires Valid()
      modifies this`nameSeq, this`indexesValid, this`indexAll, this`indexFiles, this`indexDirs, this`indexXAttrs
      ensures Valid() && Planned(KCreateDir, result, old(nameSeq), true)
      ensures result.Ok? ==> forall size, uid, gid :: AsConfigured(nodes, result.value, size, uid, gid)
    {
      hide GoodPlan, FreshPath, UnusedFrom, Exhausted, IndexesMatch;
      var path := PlanUniquePath();
      if path.Err? { return Err(path.error); }
      var mode := RandomDirMode();
      GoodCreate(nodes, CreateDir(path.value, mode), nameSeq);
      result := Ok(CreateDir(path.value, mode));
    }

    method PlanCreateSymlink() returns (result: Result<NormalOperation, PlanError>)
      requires Valid()
      modifies this`nameSeq, this`indexesValid, this`indexAll, this`indexFiles, this`indexDirs, this`indexXAttrs
      ensures Valid() && Planned(KCreateSymlink, result, old(nameSeq), true)
      ensures result.Ok? ==> forall size, uid, gid :: AsConfigured(nodes, result.value, size, uid, gid)
    {
      hide GoodPlan, UnusedFrom, Exhausted, IndexesMatch, FreshPath, RelString;
      var target := PickBelowRoot();
      if target.None? { return Err(Preconditions); }
      var path := PlanUniquePath();
      if path.Err? { return Err(path.error); }
      FreshBelowRoot(nodes, path.value, nameSeq);
      GoodCreateSymlink(nodes, path.value, target.value, nameSeq);
      result := Ok(CreateSymlink(path.value, RelString(Parent(path.value), target.value)));
    }

    method PlanCreateHardlink() returns (result: Result<NormalOperation, PlanError>)
      requires Valid()
      modifies this`nameSeq, this`indexesValid, this`indexAll, this`indexFiles, this`indexDirs, this`indexXAttrs
      ensures Valid() && Planned(KCreateHardlink, result, old(nameSeq), true)
      ensures result.Ok? ==> forall size, uid, gid :: AsConfigured(nodes, result.value, size, uid, gid)
    {
      hide GoodPlan, FreshPath, UnusedFrom, Exhausted, IndexesMatch;
      var source := PickFile();
      if source.None? { return Err(Preconditions); }
      var path := PlanUniquePath();
      if path.Err? { return Err(path.error); }
      GoodCreateHardlink(nodes, path.value, source.value, nameSeq);
      result := Ok(CreateHardlink(path.value, source.value));
    }

    /** The draw of an existing path other than the root, shared by several kinds. */
    method PickBelowRoot() returns (result: Option<Path>)
      requires Valid()
      modifies this`indexesValid, this`indexAll, this`indexFiles, this`indexDirs, this`indexXAttrs
      ensures Valid()
      ensures result.Some? ==> result.value in nodes && result.value != [] && NodeInTree(nodes, result.value)
      ensures result.None? <==> nodes.Keys <= {[]}
    {
      var paths := SortedPathsBelowRoot();
      EmptyIndex(paths, nodes.Keys - {[]});
      NoneBelowRoot(nodes);
      if |paths| == 0 { return None; }
      var k := Intn(|paths|);
      assert paths[k] in nodes.Keys - {[]} && NodeInTree(nodes, paths[k]);
      result := Some(paths[k]);
    }

    method PickFile() returns (result: Option<Path>)
      requires Valid()
      modifies this`indexesValid, this`indexAll, this`indexFiles, this`indexDirs, this`indexXAttrs
      ensures Valid()
      ensures result.Some? ==> result.value in nodes && nodes[result.value].kind == FileNode
      ensures result.Some? ==> result.value != [] && NodeInTree(nodes, result.value)
      ensures result.None? <==> OfKind(nodes, FileNode) == {}
    {
      RebuildPathIndexes();
      EmptyIndex(indexFiles, OfKind(nodes, FileNode));
      if |indexFiles| == 0 { return None; }
      var k := Intn(|indexFiles|);
      assert indexFiles[k] in OfKind(nodes, FileNode) && NodeInTree(nodes, indexFiles[k]);
      result := Some(indexFiles[k]);
    }

    method PlanDelete() returns (result: Result<NormalOperation, PlanError>)
      requires Valid()
      modifies this`indexesValid, this`indexAll, this`indexFiles, this`indexDirs, this`indexXAttrs
      ensures Valid() && Planned(KDelete, result, nameSeq, true)
      ensures result.Ok? ==> forall size, uid, gid :: AsConfigured(nodes, result.value, size, uid, gid)
    {
      hide GoodPlan, FreshPath, UnusedFrom, Exhausted, IndexesMatch;
      var path := PickBelowRoot();
      if path.None? { return Err(Preconditions); }
      GoodOnExisting(nodes, Delete(path.value), nameSeq);
      result := Ok(Delete(path.value));
    }

    method PlanRename() returns (result: Result<NormalOperation, PlanError>)
      requires Valid()
      modifies this`nameSeq, this`indexesValid, this`indexAll, this`indexFiles, this`indexDirs, this`indexXAttrs
      ensures Valid() && Planned(KRename, result, old(nameSeq), true)
      ensures result.Ok? ==> forall size, uid, gid :: AsConfigured(nodes, result.value, size, uid, gid)
    {
      hide GoodPlan, FreshPath, UnusedFrom, Exhausted, IndexesMatch;
      var source := PickBelowRoot();
      if source.None? { return Err(Preconditions); }
      result := PlanDestination(source.value);
    }

    /** The retry loop of a rename: a destination that is not inside the directory to be renamed. */
    method PlanDestination(source: Path) returns (result: Result<NormalOperation, PlanError>)
      requires Valid() && source in nodes && source != []
      modifies this`nameSeq, this`indexesValid, this`indexAll, this`indexFiles, this`indexDirs, this`indexXAttrs
      ensures Valid() && old(nameSeq) <= nameSeq
      ensures result.Ok? ==> GoodPlan(nodes, KRename, result.value, nameSeq)
      ensures result.Err? ==> FairFailure(nodes, KRename, result.error, old(nameSeq), nameSeq, true) && result.error != Preconditions
      ensures result.Ok? ==> forall size, uid, gid :: AsConfigured(nodes, result.value, size, uid, gid)
    {
      hide GoodPlan, FreshPath, UnusedFrom, Exhausted, IndexesMatch, Tree, Hopeless;
      var attempt := 1;
      while attempt <= MAX_MUTATION_RETRIES
        invariant Valid() && attempt >= 1 && nameSeq >= old(nameSeq) + attempt - 1
        invariant attempt > 1 ==> nodes[source].kind == DirNode
        decreases MAX_MUTATION_RETRIES - attempt
      {
        var destination := PlanUniquePath();
        if destination.Err? {
          return Err(destination.error);
        }
        attempt := attempt + 1;
        if nodes[source].kind == DirNode && Below(destination.value, source) {
          continue;
        }
        GoodRename(nodes, source, destination.value, nameSeq);
        return Ok(Rename(source, destination.value));
      }
      return Err(RenameDestinationExhausted);
    }

    method PlanChmod() returns (result: Result<NormalOperation, PlanError>)
      requires Valid()
      modifies this`indexesValid, this`indexAll, this`indexFiles, this`indexDirs, this`indexXAttrs
      ensures Valid() && Planned(KChmod, result, nameSeq, true)
      ensures result.Ok? ==> forall size, uid, gid :: AsConfigured(nodes, result.value, size, uid, gid)
    {
      hide GoodPlan, FreshPath, UnusedFrom, Exhausted, IndexesMatch;
      var target := PickBelowRoot();
      if target.None? { return Err(Preconditions); }
      var mode := RandomFileMode();
      if nodes[target.value].kind == DirNode {
        mode := RandomDirMode();
      }
      GoodOnExisting(nodes, Chmod(target.value, mode), nameSeq);
      result := Ok(Chmod(target.value, mode));
    }

    method PlanChown(uid: int, gid: int) returns (result: Result<NormalOperation, PlanError>)
      requires Valid()
      modifies this`indexesValid, this`indexAll, this`indexFiles, this`indexDirs, this`indexXAttrs
      ensures Valid() && Planned(KChown, result, nameSeq, uid >= 0 && gid >= 0)
      ensures result.Ok? ==> forall size :: AsConfigured(nodes, result.value, size, uid, gid)
    {
      hide GoodPlan, FreshPath, UnusedFrom, Exhausted, IndexesMatch;
      var path := PickBelowRoot();
      if path.None? || uid < 0 || gid < 0 { return Err(Preconditions); }
      GoodOnExisting(nodes, Chown(path.value, uid, gid), nameSeq);
      result := Ok(Chown(path.value, uid, gid));
    }

    method PlanTruncate(maxDataSize: nat) returns (result: Result<NormalOperation, PlanError>)
      requires Valid()
      modifies this`indexesValid, this`indexAll, this`indexFiles, this`indexDirs, this`indexXAttrs
      ensures Valid() && Planned(KTruncate, result, nameSeq, true)
      ensures result.Ok? ==> forall uid, gid :: AsConfigured(nodes, result.value, maxDataSize, uid, gid)
    {
      hide GoodPlan, FreshPath, UnusedFrom, Exhausted, IndexesMatch;
      var path := PickFile();
      if path.None? { return Err(Preconditions); }
      var currentSize := nodes[path.value].size;
      var maxSize := if currentSize > maxDataSize then currentSize else maxDataSize;
      var size := Intn(maxSize + 1);
      GoodOnExisting(nodes, Truncate(path.value, size), nameSeq);
      result := Ok(Truncate(path.value, size));
    }

    method PlanAppend(maxDataSize: nat) returns (result: Result<NormalOperation, PlanError>)
      requires Valid()
      modifies this`indexesValid, this`indexAll, this`indexFiles, this`indexDirs, this`indexXAttrs
      ensures Valid() && Planned(KAppend, result, nameSeq, true)
      ensures result.Ok? ==> forall uid, gid :: AsConfigured(nodes, result.value, maxDataSize, uid, gid)
    {
      hide GoodPlan, FreshPath, UnusedFrom, Exhausted, IndexesMatch;
      var path := PickFile();
      if path.None? { return Err(Preconditions); }
      var length := RandomDataLength(maxDataSize);
      var data := RandomBytes(length);
      GoodOnExisting(nodes, Append(path.value, data), nameSeq);
      result := Ok(Append(path.value, data));
    }

    method PlanOverwriteRange(maxDataSize: nat) returns (result: Result<NormalOperation, PlanError>)
      requires Valid()
      modifies this`indexesValid, this`indexAll, this`indexFiles, this`indexDirs, this`indexXAttrs
      ensures Valid() && Planned(KOverwriteRange, result, nameSeq, true)
      ensures result.Ok? ==> forall uid, gid :: AsConfigured(nodes, result.value, maxDataSize, uid, gid)
    {
      hide Tree, NodeInTree, GoodPlan, FreshPath, UnusedFrom, Exhausted, IndexesMatch;
      var path := PickFile();
      if path.None? { return Err(Preconditions); }
      var fileSize := nodes[path.value].size;
      if fileSize <= 0 { return Err(Preconditions); }
      var offset := Intn(fileSize);
      var remaining := fileSize - offset;
      var maxLen := if maxDataSize > remaining then remaining else maxDataSize;
      var length := RandomDataLength(maxLen);
      var data := RandomBytes(length);
      GoodOverwrite(nodes, path.value, offset, data, nameSeq);
      result := Ok(OverwriteRange(path.value, offset, data));
    }

    /** The root is always there, so the source's check for an empty index never fires. */
    method PickAny() returns (target: Path)
      requires Valid()
      modifies this`indexesValid, this`indexAll, this`indexFiles, this`indexDirs, this`indexXAttrs
      ensures Valid() && target in nodes
    {
      RebuildPathIndexes();
      assert [] in nodes.Keys;
      EmptyIndex(indexAll, nodes.Keys);
      hide Tree;
      var k := Intn(|indexAll|);
      assert indexAll[k] in nodes.Keys;
      target := indexAll[k];
    }

    method PlanSetXAttr(maxDataSize: nat) returns (result: Result<NormalOperation, PlanError>)
      requires Valid()
      modifies this`indexesValid, this`indexAll, this`indexFiles, this`indexDirs, this`indexXAttrs
      ensures Valid() && Planned(KSetXAttr, result, nameSeq, true)
      ensures result.Ok? ==> forall uid, gid :: AsConfigured(nodes, result.value, maxDataSize, uid, gid)
    {
      hide GoodPlan, FreshPath, UnusedFrom, Exhausted, IndexesMatch, MutationXAttrName;
      var target := PickAny();
      var draw;
      ghost var misses;
      draw, misses := DrawXAttrNumber(nodes[target].xattrs);
      var length := RandomDataLength(maxDataSize);
      var value := RandomBytes(length);
      GoodSetXAttr(nodes, target, draw, value, nameSeq);
      result := Ok(SetXAttr(target, MutationXAttrName(draw), value));
    }

    method PickWithXAttrs() returns (result: Option<Path>)
      requires Valid()
      modifies this`indexesValid, this`indexAll, this`indexFiles, this`indexDirs, this`indexXAttrs
      ensures Valid()
      ensures result.Some? ==> result.value in nodes && nodes[result.value].xattrs != {}
      ensures result.None? <==> WithXAttrs(nodes) == {}
    {
      RebuildPathIndexes();
      EmptyIndex(indexXAttrs, WithXAttrs(nodes));
      if |indexXAttrs| == 0 { return None; }
      var k := Intn(|indexXAttrs|);
      assert indexXAttrs[k] in WithXAttrs(nodes);
      result := Some(indexXAttrs[k]);
    }

    method PlanRemoveXAttr() returns (result: Result<NormalOperation, PlanError>)
      requires Valid()
      modifies this`indexesValid, this`indexAll, this`indexFiles, this`indexDirs, this`indexXAttrs
      ensures Valid() && Planned(KRemoveXAttr, result, nameSeq, true)
      ensures result.Ok? ==> forall size, uid, gid :: AsConfigured(nodes, result.value, size, uid, gid)
    {
      hide GoodPlan, UnusedFrom, Exhausted, IndexesMatch;
      var drawn := PickWithXAttrs();
      if drawn.None? { return Err(Preconditions); }
      var target := drawn.value;
      var name :| name in nodes[target].xattrs;   // any member may be drawn from the sorted list
      GoodRemoveXAttr(nodes, target, name, nameSeq);
      result := Ok(RemoveXAttr(target, name));
    }

    method PlanOperation(kind: Kind, maxDataSize: nat, uid: int, gid: int)
        returns (result: Result<NormalOperation, PlanError>)
      requires Valid()
      modifies this`nameSeq, this`indexesValid, this`indexAll, this`indexFiles, this`indexDirs, this`indexXAttrs
      ensures Valid() && Planned(kind, result, old(nameSeq), uid >= 0 && gid >= 0)
      ensures result.Ok? ==> AsConfigured(nodes, result.value, maxDataSize, uid, gid)
    {
      OwnerMattersToChown(nodes, uid >= 0 && gid >= 0);
      hide GoodPlan, FreshPath, UnusedFrom, Exhausted, IndexesMatch, Hopeless, Unlucky, HasInnerDirectory, Tree;
      match kind {
        case KCreateFile => result := PlanCreateFile(maxDataSize);
        case KCreateDir => result := PlanCreateDir();
        case KCreateSymlink => result := PlanCreateSymlink();
        case KCreateHardlink => result := PlanCreateHardlink();
        case KDelete => result := PlanDelete();
        case KRename => result := PlanRename();
        case KChmod => result := PlanChmod();
        case KChown => result := PlanChown(uid, gid);
        case KTruncate => result := PlanTruncate(maxDataSize);
        case KAppend => result := PlanAppend(maxDataSize);
        case KOverwriteRange => result := PlanOverwriteRange(maxDataSize);
        case KSetXAttr => result := PlanSetXAttr(maxDataSize);
        case KRemoveXAttr => result := PlanRemoveXAttr();
        case KUnknown(_) => result := Err(UnsupportedKind);
      }
    }

    // -------------------------------------------------------------- applying

    /** The deletion of a directory: the map loses every key at or below `top`. */
    method DeleteSubtree(top: Path)
      modifies this`nodes
      ensures nodes == WithoutSubtree(old(nodes), top)
    {
      var rest := nodes.Keys;
      while rest != {}
        invariant rest <= old(nodes).Keys
        invariant forall p :: p in nodes <==> p in old(nodes) && (p in rest || !(top <= p))
        invariant forall p :: p in nodes ==> nodes[p] == old(nodes)[p]
        decreases rest
      {
        var path :| path in rest;
        rest := rest - {path};
        if path == top || Below(path, top) {
          nodes := nodes - {path};
        }
      }
    }

    /** The first pass of a directory rename: the moved nodes under their new keys. */
    method CollectMoved(source: Path, destination: Path) returns (updates: Nodes, toDelete: seq<Path>)
      ensures updates == MovedSubtree(nodes, source, destination)
      ensures forall p :: p in toDelete <==> p in nodes && source <= p
    {
      updates, toDelete := map[], [];
      var rest := nodes.Keys;
      while rest != {}
        invariant rest <= nodes.Keys
        invariant forall p :: p in toDelete <==> p in nodes && p !in rest && source <= p
        invariant forall p :: p in toDelete ==> Relocated(nodes, updates, source, destination, p)
        invariant forall q :: q in updates ==> destination <= q && source + q[|destination|..] in toDelete
        decreases rest
      {
        var path :| path in rest;
        rest := rest - {path};
        if path != source && !Below(path, source) {
          continue;
        }
        var suffix := path[|source|..];
        var targetPath := destination + suffix;   // the string splice: Paths.SpliceSwapsPrefix
        assert source + suffix == path && targetPath[|destination|..] == suffix;
        forall p | p in toDelete ensures Relocated(nodes, updates[targetPath := nodes[path]], source, destination, p) {
          RelocatedKept(nodes, updates, source, destination, p, path);
        }
        updates := updates[targetPath := nodes[path]];
        toDelete := toDelete + [path];
      }
      CollectedIsMoved(nodes, updates, toDelete, source, destination);
    }

    method DeleteAll(toDelete: seq<Path>)
      modifies this`nodes
      ensures nodes == map p | p in old(nodes) && p !in toDelete :: old(nodes)[p]
    {
      for i := 0 to |toDelete|
        invariant forall p :: p in nodes <==> p in old(nodes) && p !in toDelete[..i]
        invariant forall p :: p in nodes ==> nodes[p] == old(nodes)[p]
      {
        nodes := nodes - {toDelete[i]};
        assert toDelete[..i + 1] == toDelete[..i] + [toDelete[i]];
      }
      assert toDelete[..|toDelete|] == toDelete;
    }

    method WriteAll(updates: Nodes)
      modifies this`nodes
      ensures nodes == old(nodes) + updates
    {
      var rest := updates.Keys;
      while rest != {}
        invariant rest <= updates.Keys
        invariant nodes == old(nodes) + (map q | q in updates && q !in rest :: updates[q])
        decreases rest
      {
        var path :| path in rest;
        rest := rest - {path};
        nodes := nodes[path := updates[path]];
      }
      assert (map q | q in updates && q !in rest :: updates[q]) == updates;
    }

    /** The rename of a directory: delete every old key, then write every new one. */
    method RenameSubtree(source: Path, destination: Path)
      modifies this`nodes
      ensures nodes == MoveSubtree(old(nodes), source, destination)
    {
      var updates, toDelete := CollectMoved(source, destination);
      DeleteAll(toDelete);
      assert nodes == WithoutSubtree(old(nodes), source);
      WriteAll(updates);
    }

    /** applyVirtualOperation: the map becomes `Step`'s result, or stays as it was. */
    method ApplyVirtualOperation(op: NormalOperation) returns (error: Option<StepError>)
      modifies this`nodes, this`indexesValid, this`indexAll, this`indexFiles, this`indexDirs, this`indexXAttrs
      ensures !indexesValid
      ensures error.None? ==> Step(old(nodes), op) == Ok(nodes)
      ensures error.Some? ==> Step(old(nodes), op) == Err(error.value) && nodes == old(nodes)
    {
      InvalidatePathIndexes();
      match op {
        case CreateFile(path, _, data) =>
          if path in nodes { return Some(AlreadyExists); }
          if !HasParentDirectory(nodes, path) { return Some(ParentMissing); }
          nodes := nodes[path := Node(FileNode, |data|, {})];
        case CreateDir(path, _) =>
          if path in nodes { return Some(AlreadyExists); }
          if !HasParentDirectory(nodes, path) { return Some(ParentMissing); }
          nodes := nodes[path := Node(DirNode, 0, {})];
        case CreateSymlink(path, _) =>
          if path in nodes { return Some(AlreadyExists); }
          if !HasParentDirectory(nodes, path) { return Some(ParentMissing); }
          nodes := nodes[path := Node(SymlinkNode, 0, {})];
        case CreateHardlink(path, source) =>
          if source !in nodes { return Some(SourceMissing); }
          if nodes[source].kind != FileNode { return Some(NotRegularFile); }
          if path in nodes { return Some(AlreadyExists); }
          if !HasParentDirectory(nodes, path) { return Some(ParentMissing); }
          nodes := nodes[path := Node(FileNode, nodes[source].size, nodes[source].xattrs)];
        case Delete(path) =>
          if path !in nodes { return Some(PathMissing); }
          if nodes[path].kind == DirNode {
            DeleteSubtree(path);
          } else {
            nodes := nodes - {path};
          }
        case Rename(source, destination) =>
          if source !in nodes { return Some(PathMissing); }
          if destination in nodes { return Some(AlreadyExists); }
          if !HasParentDirectory(nodes, destination) { return Some(ParentMissing); }
          if nodes[source].kind == DirNode && Below(destination, source) { return Some(DestinationInsideSource); }
          if nodes[source].kind != DirNode {
            nodes := (nodes - {source})[destination := nodes[source]];
          } else {
            RenameSubtree(source, destination);
          }
        case Chmod(path, _) =>
          if path !in nodes { return Some(PathMissing); }
        case Chown(path, _, _) =>
          if path !in nodes { return Some(PathMissing); }
        case Truncate(path, size) =>
          error := ResizeFile(path, _ => size);
          return;
        case Append(path, data) =>
          error := ResizeFile(path, size => size + |data|);
          return;
        case OverwriteRange(path, offset, data) =>
          var end := offset + |data|;
          error := ResizeFile(path, size => if end > size then end else size);
          return;
        case SetXAttr(path, name, _) =>
          if path !in nodes { return Some(PathMissing); }
          if ValidateXAttrName(name).Err? { return Some(XAttrNameInvalid); }
          nodes := nodes[path := nodes[path].(xattrs := nodes[path].xattrs + {name})];
        case RemoveXAttr(path, name) =>
          if path !in nodes { return Some(PathMissing); }
          if ValidateXAttrName(name).Err? { return Some(XAttrNameInvalid); }
          if name !in nodes[path].xattrs { return Some(XAttrMissing); }
          nodes := nodes[path := nodes[path].(xattrs := nodes[path].xattrs - {name})];
        case UnknownKind(_, _) =>
          return Some(KindUnsupported);
      }
      return None;
    }

    /** The checks and the update truncate, append and overwrite-range share. */
    method ResizeFile(path: Path, size: int -> int) returns (error: Option<StepError>)
      modifies this`nodes
      ensures error.None? ==> UpdateFile(old(nodes), path, size) == Ok(nodes)
      ensures error.Some? ==> UpdateFile(old(nodes), path, size) == Err(error.value) && nodes == old(nodes)
    {
      if path !in nodes { return Some(PathMissing); }
      if nodes[path].kind != FileNode { return Some(NotRegularFile); }
      nodes := nodes[path := nodes[path].(size := size(nodes[path].size))];
      return None;
    }

    // -------------------------------------------------------------- generation

    /**
      planNextOperation: the allowed kinds in rotation from a drawn start. It reports missing
      preconditions only when every kind can miss them, and always when every kind must.
     */
    method PlanNextOperation(allowedKinds: seq<Kind>, maxDataSize: nat, uid: int, gid: int)
        returns (result: Result<NormalOperation, PlanError>)
      requires Valid() && allowedKinds != []
      modifies this`nameSeq, this`indexesValid, this`indexAll, this`indexFiles, this`indexDirs, this`indexXAttrs
      ensures Valid() && old(nameSeq) <= nameSeq
      ensures result.Ok? ==> KindOf(result.value) in allowedKinds && GoodPlan(nodes, KindOf(result.value), result.value, nameSeq)
      ensures result.Ok? ==> AsConfigured(nodes, result.value, maxDataSize, uid, gid)
      ensures result.Err? ==> FairStop(nodes, allowedKinds, result.error, old(nameSeq), nameSeq, uid >= 0 && gid >= 0)
      ensures (forall kind :: kind in allowedKinds ==> Hopeless(nodes, kind, uid >= 0 && gid >= 0)) ==> result == Err(Preconditions)
    {
      hide GoodPlan, UnusedFrom, Exhausted, IndexesMatch, FairFailure, TriedBefore, Tree, Hopeless, Unlucky, HasInnerDirectory;
      var start := Intn(|allowedKinds|);
      var i := 0;
      NothingTried(allowedKinds, start);
      while i < |allowedKinds|
        invariant 0 <= i <= |allowedKinds|
        invariant Valid() && nodes == old(nodes) && old(nameSeq) <= nameSeq
        invariant UnluckySoFar(nodes, allowedKinds, start, i, uid >= 0 && gid >= 0)
      {
        var kind := Rotated(allowedKinds, start, i);
        ghost var counter := nameSeq;
        var op := PlanOperation(kind, maxDataSize, uid, gid);
        if op.Ok? {
          GoodPlanKind(nodes, kind, op.value, nameSeq);
          return op;
        }
        FairFailureFacts(nodes, kind, op.error, counter, nameSeq, uid >= 0 && gid >= 0, old(nameSeq));
        if op.error == Preconditions {
          OneMoreUnlucky(nodes, allowedKinds, start, i, uid >= 0 && gid >= 0);
          i := i + 1;
          continue;
        }
        assert FairStop(nodes, allowedKinds, op.error, old(nameSeq), nameSeq, uid >= 0 && gid >= 0) by {
          CollisionCause(nodes, kind, op.error, old(nameSeq), nameSeq, uid >= 0 && gid >= 0);
        }
        assert kind in allowedKinds && !Hopeless(nodes, kind, uid >= 0 && gid >= 0);
        return op;
      }
      forall kind | kind in allowedKinds ensures Unlucky(nodes, kind, uid >= 0 && gid >= 0) {
        RotationCovers(allowedKinds, start, kind);
      }
      return Err(Preconditions);
    }
  }

  ghost predicate UnluckySoFar(nodes: Nodes, kinds: seq<Kind>, start: nat, tried: nat, owned: bool) {
    forall kind :: TriedBefore(kinds, start, tried, kind) ==> Unlucky(nodes, kind, owned)
  }

  lemma OneMoreUnlucky(nodes: Nodes, kinds: seq<Kind>, start: nat, tried: nat, owned: bool)
    requires kinds != [] && UnluckySoFar(nodes, kinds, start, tried, owned)
    requires Unlucky(nodes, Rotated(kinds, start, tried), owned)
    ensures UnluckySoFar(nodes, kinds, start, tried + 1, owned)
  {
    hide Unlucky, TriedBefore;
    TriedOneMore(kinds, start, tried);
  }

  /** Why no kind could be planned. */
  ghost predicate FairStop(nodes: Nodes, kinds: seq<Kind>, error: PlanError, counter: nat, later: nat, owned: bool) {
    match error
    case Preconditions => forall kind :: kind in kinds ==> Unlucky(nodes, kind, owned)
    case CollisionExhausted => exists start: nat :: start >= counter && Exhausted(nodes, start)
    case RenameDestinationExhausted => KRename in kinds && HasInnerDirectory(nodes) && later >= counter + 128
    case UnsupportedKind => exists kind :: kind in kinds && kind.KUnknown?
  }

  lemma CollisionCause(nodes: Nodes, kind: Kind, error: PlanError, counter: nat, later: nat, owned: bool)
    requires FairFailure(nodes, kind, error, counter, later, owned) || error == RenameDestinationExhausted
    ensures error == CollisionExhausted ==> exists start: nat :: start >= counter && Exhausted(nodes, start)
  {
    hide Exhausted;
  }

  lemma NothingTried(kinds: seq<Kind>, start: nat)
    ensures forall kind :: !TriedBefore(kinds, start, 0, kind)
  {
  }

  lemma TriedOneMore(kinds: seq<Kind>, start: nat, tried: nat)
    requires kinds != []
    ensures forall kind :: TriedBefore(kinds, start, tried + 1, kind) <==>
              TriedBefore(kinds, start, tried, kind) || kind == Rotated(kinds, start, tried)
  {
    forall kind ensures TriedBefore(kinds, start, tried + 1, kind) <==>
              TriedBefore(kinds, start, tried, kind) || kind == Rotated(kinds, start, tried)
    {
      if TriedBefore(kinds, start, tried + 1, kind) {
        var k: nat :| k < tried + 1 && Rotated(kinds, start, k) == kind;
      }
    }
  }

  /** The draw of an attribute number, retried while its name is taken: a taken name comes only after 128 taken draws. */
  method DrawXAttrNumber(taken: set<string>) returns (draw: nat, ghost misses: seq<nat>)
    ensures draw < 1000
    ensures MutationXAttrName(draw) in taken ==>
      |misses| == 128 && forall k :: 0 <= k < |misses| ==> MutationXAttrName(misses[k]) in taken
  {
    hide MutationXAttrName;
    draw := Intn(1000);
    misses := [];
    var attempt := 0;
    while attempt < MAX_MUTATION_RETRIES
      invariant draw < 1000 && attempt == |misses| <= MAX_MUTATION_RETRIES
      invariant forall k :: 0 <= k < |misses| ==> MutationXAttrName(misses[k]) in taken
    {
      var candidate := Intn(1000);
      if MutationXAttrName(candidate) !in taken {
        return candidate, misses;
      }
      misses := misses + [candidate];
      attempt := attempt + 1;
    }
  }

  /** fmt.Sprintf("user.mut_%03d") */
  function MutationXAttrName(draw: nat): string {
    "user.mut_" + ZeroPad(Decimal(draw), 3)
  }

  lemma MutationXAttrNameValid(draw: nat)
    ensures ValidateXAttrName(MutationXAttrName(draw)) == Ok(MutationXAttrName(draw))
  {
    var name := MutationXAttrName(draw);
    var digits := ZeroPad(Decimal(draw), 3);
    assert forall i :: 0 <= i < |digits| ==> digits[i] != NUL;
    assert name == "user" + ['.'] + ("mut_" + digits);
    SplitConcat("user", "mut_" + digits, '.');
    SplitWhole("user", '.');
    assert name[4] == '.';
  }
}
