/**
  mutate.go's `ApplyOperationsWithOptions`: replaying a stream against the real tree with fault
  injection and resumption, and the theorem that ties planning to replaying.
 */
module Execution {
  import opened Wrappers
  import opened Paths
  import opened Operations
  import VT = VirtualTree
  import opened FileSystem
  import opened RealEffects
  import opened RealOperations
  import opened Simulation
  import opened Faults
  import opened Generation

  datatype Failure =
    | Invalid(operation: OperationError)
    | Injected(rule: nat)
    | Refused(refusal: RealError)

  datatype Outcome =
    | Completed
    | StartIndexNegative | StartIndexOutOfRange | ProfileInvalid | BaseNotDirectory
    | Failed(index: nat, failure: Failure)

  /** OperationKind.String */
  function KindName(op: NormalOperation): string {
    match op
    case CreateFile(_, _, _) => "create-file"
    case CreateDir(_, _) => "create-dir"
    case CreateSymlink(_, _) => "create-symlink"
    case CreateHardlink(_, _) => "create-hardlink"
    case Delete(_) => "delete"
    case Rename(_, _) => "rename"
    case Chmod(_, _) => "chmod"
    case Chown(_, _, _) => "chown"
    case Truncate(_, _) => "truncate"
    case Append(_, _) => "append"
    case OverwriteRange(_, _, _) => "overwrite-range"
    case SetXAttr(_, _, _) => "set-xattr"
    case RemoveXAttr(_, _) => "remove-xattr"
    case UnknownKind(_, _) => "unknown"
  }

  function PointOf(op: NormalOperation, i: nat): Point {
    Point(MutationScope, KindName(op), Render(op.path), i)
  }

  /** What a replay from index `i` does to the tree, and how it ends. */
  function Replay(glob: Glob, fs: Fs, states: seq<RuleState>, ops: seq<RawOperation>, i: nat): (Fs, Outcome)
    decreases |ops| - i
  {
    if i >= |ops| then (fs, Completed)
    else
      var normalized := NormalizeOperation(ops[i]);
      if normalized.Err? then (fs, Failed(i, Invalid(normalized.error)))
      else
        var (next, fired) := Scan(glob, states, PointOf(normalized.value, i), 0);
        if fired.Some? then (fs, Failed(i, Injected(fired.value)))
        else
          var stepped := RealStep(fs, normalized.value);
          if stepped.Err? then (fs, Failed(i, Refused(stepped.error)))
          else Replay(glob, stepped.value, next, ops, i + 1)
  }

  method ApplyOperationsWithOptions(disk: Disk, glob: Glob, ops: seq<RawOperation>, startIndex: int, profile: seq<Rule>)
      returns (outcome: Outcome)
    modifies disk
    ensures startIndex < 0 ==> outcome == StartIndexNegative && disk.fs == old(disk.fs)
    ensures startIndex > |ops| ==> outcome == StartIndexOutOfRange && disk.fs == old(disk.fs)
    ensures 0 <= startIndex <= |ops| ==>
      if exists r :: 0 <= r < |profile| && !ValidRule(glob, profile[r])
      then outcome == ProfileInvalid && disk.fs == old(disk.fs)
      else if startIndex < |ops| && !IsDir(old(disk.fs), [])
      then outcome == BaseNotDirectory && disk.fs == old(disk.fs)
      else (disk.fs, outcome) == Replay(glob, old(disk.fs), FreshStates(profile), ops, startIndex)
  {
    hide NormalizeOperation, RealStep, Scan, ValidRule;
    if startIndex < 0 { return StartIndexNegative; }
    if startIndex > |ops| { return StartIndexOutOfRange; }
    for r := 0 to |profile|
      invariant forall q :: 0 <= q < r ==> ValidRule(glob, profile[q])
      invariant disk.fs == old(disk.fs)
    {
      if !ValidRule(glob, profile[r]) { return ProfileInvalid; }
    }
    if startIndex == |ops| { return Completed; }
    if !IsDir(disk.fs, []) { return BaseNotDirectory; }
    var injector := new FaultInjector(glob, profile);
    outcome := ReplayLoop(disk, injector, ops, startIndex);
  }

  method ReplayLoop(disk: Disk, injector: FaultInjector, ops: seq<RawOperation>, startIndex: nat)
      returns (outcome: Outcome)
    requires startIndex <= |ops|
    modifies disk, injector.rules
    ensures (disk.fs, outcome) == Replay(injector.glob, old(disk.fs), old(injector.rules[..]), ops, startIndex)
  {
    hide NormalizeOperation, RealStep, Scan;
    ghost var expected := Replay(injector.glob, disk.fs, injector.rules[..], ops, startIndex);
    for i := startIndex to |ops|
      invariant expected == Replay(injector.glob, disk.fs, injector.rules[..], ops, i)
    {
      var normalized := NormalizeOperation(ops[i]);
      if normalized.Err? {
        return Failed(i, Invalid(normalized.error));
      }
      var fired := injector.Before(PointOf(normalized.value, i));
      if fired.Some? {
        return Failed(i, Injected(fired.value));
      }
      var refused := disk.ApplyOperation(normalized.value);
      if refused.Some? {
        return Failed(i, Refused(refused.value));
      }
    }
    return Completed;
  }

  // ---------------------------------------------------------------- faults and resumption

  lemma NoRulesNoFault(glob: Glob, point: Point)
    ensures Scan(glob, [], point, 0) == ([], None)
  {
  }

  /**
    Resuming loses nothing: a replay that stopped at index `k`, for whatever reason, has done
    exactly what an uninterrupted replay does before `k`; going on from there without faults
    ends in the tree and with the outcome of the uninterrupted replay.
   */
  lemma {:induction false} ResumeLosesNothing(glob: Glob, fs: Fs, states: seq<RuleState>, ops: seq<RawOperation>, i: nat)
    requires i <= |ops|
    ensures var (stopped, outcome) := Replay(glob, fs, states, ops, i);
      && (outcome.Failed? ==>
            i <= outcome.index < |ops|
            && Replay(glob, stopped, [], ops, outcome.index) == Replay(glob, fs, [], ops, i))
      && (outcome == Completed ==> Replay(glob, fs, [], ops, i) == (stopped, Completed))
      && (outcome.Failed? || outcome == Completed)
    decreases |ops| - i
  {
    hide NormalizeOperation, RealStep;
    if i < |ops| {
      var normalized := NormalizeOperation(ops[i]);
      if normalized.Ok? {
        var point := PointOf(normalized.value, i);
        NoRulesNoFault(glob, point);
        var (next, fired) := Scan(glob, states, point, 0);
        hide Scan;
        var stepped := RealStep(fs, normalized.value);
        if fired.None? && stepped.Ok? {
          ResumeLosesNothing(glob, stepped.value, next, ops, i + 1);
        }
      }
    }
  }

  /** The execution points of the operations from `start` on. */
  function Points(ops: seq<RawOperation>, start: nat): seq<Point>
    requires start <= |ops|
  {
    seq(|ops| - start, j requires 0 <= j < |ops| - start =>
      var normalized := NormalizeOperation(ops[start + j]);
      if normalized.Ok? then PointOf(normalized.value, start + j) else Point(AnyScope, "", "", start + j))
  }

  lemma {:induction false} FaultStopsReplay(glob: Glob, fs: Fs, states: seq<RuleState>, ops: seq<RawOperation>, start: nat, j: nat)
    requires start + j <= |ops| && Replay(glob, fs, [], ops, start + j).1 == Completed
    ensures Replay(glob, fs, states, ops, start + j).1 ==
      match FirstFault(glob, states, Points(ops, start), j)
      case Some((k, r)) => Failed(start + k, Injected(r))
      case None => Completed
    decreases |ops| - start - j
  {
    hide NormalizeOperation, RealStep;
    var i := start + j;
    if i < |ops| {
      var op := NormalizeOperation(ops[i]).value;
      assert Points(ops, start)[j] == PointOf(op, i);
      NoRulesNoFault(glob, PointOf(op, i));
      var (next, fired) := Scan(glob, states, PointOf(op, i), 0);
      hide Scan;
      if fired.None? {
        FaultStopsReplay(glob, RealStep(fs, op).value, next, ops, start, j + 1);
      }
    }
  }

  /**
    Where a stream would replay cleanly, faults alone decide the outcome: the replay fails at
    the least point at which some rule reaches its nth match, before that operation runs, and
    blames the lowest such rule; it completes when there is no such point.
   */
  lemma FaultsDecideReplay(glob: Glob, rules: seq<Rule>, fs: Fs, ops: seq<RawOperation>, start: nat)
    requires start <= |ops| && Replay(glob, fs, [], ops, start).1 == Completed
    ensures match Replay(glob, fs, FreshStates(rules), ops, start).1
      case Completed => forall j :: 0 <= j < |ops| - start ==> SilentAt(glob, rules, Points(ops, start), j)
      case Failed(k, Injected(r)) => k >= start && IsFirstFault(glob, rules, Points(ops, start), k - start, r)
      case _ => false
  {
    hide Replay, IsFirstFault, SilentAt, FirstFault;
    assert |Points(ops, start)| == |ops| - start;
    FaultStopsReplay(glob, fs, FreshStates(rules), ops, start, 0);
    FirstFaultCharacterised(glob, rules, Points(ops, start));
  }

  /** A fault rule's own words about an operation: its scope, its kind's name, its path. */
  predicate Meets(glob: Glob, rule: Rule, op: NormalOperation) {
    && rule.scope != RunScope && !rule.scope.UnknownScope?
    && (rule.kind != "" ==> rule.kind == KindName(op))
    && (rule.pattern != "" ==> glob.matches(rule.pattern, Render(op.path)))
  }

  predicate MeetsAt(glob: Glob, rule: Rule, ops: seq<RawOperation>, k: nat)
    requires k < |ops|
  {
    NormalizeOperation(ops[k]).Ok? && Meets(glob, rule, NormalizeOperation(ops[k]).value)
  }

  /** How many operations from `start` up to `end` the rule meets. */
  function Met(glob: Glob, rule: Rule, ops: seq<RawOperation>, start: nat, end: nat): nat
    requires start <= end <= |ops|
    decreases end - start
  {
    if start == end then 0 else Met(glob, rule, ops, start, end - 1) + if MeetsAt(glob, rule, ops, end - 1) then 1 else 0
  }

  /** The rule meets the operation, and it is the nth it meets. */
  predicate Due(glob: Glob, rule: Rule, ops: seq<RawOperation>, start: nat, k: nat)
    requires start <= k < |ops|
  {
    MeetsAt(glob, rule, ops, k) && Met(glob, rule, ops, start, k + 1) == rule.nth
  }

  /** The names rules know the operations by. */
  lemma KindNames(op: NormalOperation)
    ensures KindName(op) == "create-file" <==> op.CreateFile?
    ensures KindName(op) == "create-dir" <==> op.CreateDir?
    ensures KindName(op) == "create-symlink" <==> op.CreateSymlink?
    ensures KindName(op) == "create-hardlink" <==> op.CreateHardlink?
    ensures KindName(op) == "delete" <==> op.Delete?
    ensures KindName(op) == "rename" <==> op.Rename?
    ensures KindName(op) == "chmod" <==> op.Chmod?
    ensures KindName(op) == "chown" <==> op.Chown?
    ensures KindName(op) == "truncate" <==> op.Truncate?
    ensures KindName(op) == "append" <==> op.Append?
    ensures KindName(op) == "overwrite-range" <==> op.OverwriteRange?
    ensures KindName(op) == "set-xattr" <==> op.SetXAttr?
    ensures KindName(op) == "remove-xattr" <==> op.RemoveXAttr?
  {
    var name := KindName(op);
    assert |name| > 0;
  }

  lemma {:induction false} CompletedIsNormal(glob: Glob, fs: Fs, ops: seq<RawOperation>, start: nat, k: nat)
    requires start <= k < |ops| && Replay(glob, fs, [], ops, start).1 == Completed
    ensures NormalizeOperation(ops[k]).Ok?
    decreases k - start
  {
    hide NormalizeOperation, RealStep;
    if start < k {
      var op := NormalizeOperation(ops[start]).value;
      NoRulesNoFault(glob, PointOf(op, start));
      CompletedIsNormal(glob, RealStep(fs, op).value, ops, start + 1, k);
    }
  }

  lemma PointMeets(glob: Glob, rule: Rule, ops: seq<RawOperation>, start: nat, j: nat)
    requires start + j < |ops| && NormalizeOperation(ops[start + j]).Ok?
    ensures RuleMatches(glob, rule, Points(ops, start)[j]) && !rule.scope.UnknownScope? <==> MeetsAt(glob, rule, ops, start + j)
  {
    hide NormalizeOperation, KindName, Render;
    var op := NormalizeOperation(ops[start + j]).value;
    assert Points(ops, start)[j] == PointOf(op, start + j);
    hide Points;
    if rule.scope.MutationScope? || rule.scope.AnyScope? { assert RuleMatches(glob, rule, PointOf(op, start + j)) <==> Meets(glob, rule, op); }
  }

  lemma {:induction false} PointsCount(glob: Glob, rule: Rule, ops: seq<RawOperation>, start: nat, n: nat)
    requires start + n <= |ops| && !rule.scope.UnknownScope? && AllNormal(ops, start)
    ensures Count(glob, rule, Points(ops, start)[..n]) == Met(glob, rule, ops, start, start + n)
    decreases n
  {
    hide RuleMatches, MeetsAt, Points;
    if n > 0 {
      assert |Points(ops, start)| == |ops| - start by { PointsLength(ops, start); }
      assert Points(ops, start)[..n][..n - 1] == Points(ops, start)[..n - 1];
      PointsCount(glob, rule, ops, start, n - 1);
      PointMeets(glob, rule, ops, start, n - 1);
    }
  }

  lemma PointsLength(ops: seq<RawOperation>, start: nat)
    requires start <= |ops|
    ensures |Points(ops, start)| == |ops| - start
  {
  }

  ghost predicate AllNormal(ops: seq<RawOperation>, start: nat) {
    forall k :: start <= k < |ops| ==> NormalizeOperation(ops[k]).Ok?
  }

  ghost predicate KnownScopes(rules: seq<Rule>) {
    forall r :: 0 <= r < |rules| ==> !rules[r].scope.UnknownScope?
  }

  lemma HitIsDue(glob: Glob, rule: Rule, ops: seq<RawOperation>, start: nat, j: nat)
    requires start + j < |ops| && !rule.scope.UnknownScope? && AllNormal(ops, start)
    ensures |Points(ops, start)| == |ops| - start
    ensures Hits(glob, rule, Points(ops, start)[..j + 1]) <==> Due(glob, rule, ops, start, start + j)
  {
    PointsLength(ops, start);
    PointsCount(glob, rule, ops, start, j + 1);
    PointMeets(glob, rule, ops, start, j);
    hide RuleMatches, MeetsAt, Points, Count, Met;
  }

  /** No rule below `n` is due at the operation. */
  ghost predicate NoneDue(glob: Glob, rules: seq<Rule>, n: nat, ops: seq<RawOperation>, start: nat, k: nat)
    requires n <= |rules| && start <= k < |ops|
  {
    forall q :: 0 <= q < n ==> !Due(glob, rules[q], ops, start, k)
  }

  /** The least operation that is the nth some rule meets, and the lowest such rule. */
  ghost predicate FirstDue(glob: Glob, rules: seq<Rule>, ops: seq<RawOperation>, start: nat, k: nat, r: nat)
    requires start <= |ops|
  {
    && start <= k < |ops| && r < |rules| && Due(glob, rules[r], ops, start, k) && NoneDue(glob, rules, r, ops, start, k)
    && forall j :: start <= j < k ==> NoneDue(glob, rules, |rules|, ops, start, j)
  }

  lemma SilentIsNone(glob: Glob, rules: seq<Rule>, ops: seq<RawOperation>, start: nat, j: nat)
    requires start + j < |ops| && KnownScopes(rules) && AllNormal(ops, start)
    requires j < |Points(ops, start)| && SilentAt(glob, rules, Points(ops, start), j)
    ensures NoneDue(glob, rules, |rules|, ops, start, start + j)
  {
    hide Hits, Due, Points;
    forall q | 0 <= q < |rules| ensures !Due(glob, rules[q], ops, start, start + j) {
      HitIsDue(glob, rules[q], ops, start, j);
    }
  }

  lemma LowestIsDue(glob: Glob, rules: seq<Rule>, ops: seq<RawOperation>, start: nat, j: nat, r: nat)
    requires start + j < |ops| && KnownScopes(rules) && AllNormal(ops, start)
    requires j < |Points(ops, start)| && LowestHit(glob, rules, Points(ops, start)[..j + 1], r)
    ensures r < |rules| && Due(glob, rules[r], ops, start, start + j) && NoneDue(glob, rules, r, ops, start, start + j)
  {
    hide Hits, Due, Points;
    HitIsDue(glob, rules[r], ops, start, j);
    forall q | 0 <= q < r ensures !Due(glob, rules[q], ops, start, start + j) {
      HitIsDue(glob, rules[q], ops, start, j);
    }
  }

  lemma FirstFaultIsDue(glob: Glob, rules: seq<Rule>, ops: seq<RawOperation>, start: nat, j: nat, r: nat)
    requires start <= |ops| && KnownScopes(rules) && AllNormal(ops, start) && IsFirstFault(glob, rules, Points(ops, start), j, r)
    ensures FirstDue(glob, rules, ops, start, start + j, r)
  {
    PointsLength(ops, start);
    hide Points, Due, NoneDue, LowestHit, SilentAt, AllNormal, KnownScopes;
    LowestIsDue(glob, rules, ops, start, j, r);
    forall k | start <= k < start + j ensures NoneDue(glob, rules, |rules|, ops, start, k) {
      assert SilentAt(glob, rules, Points(ops, start), k - start);
      SilentIsNone(glob, rules, ops, start, k - start);
    }
  }

  /**
    Which operation a fault stops, said on operations alone. With known scopes, and where the
    stream would replay cleanly, the replay fails at the least operation that is the nth some rule
    meets and blames the lowest such rule; it completes when there is none.
   */
  lemma FaultsByOperation(glob: Glob, rules: seq<Rule>, fs: Fs, ops: seq<RawOperation>, start: nat)
    requires start <= |ops| && Replay(glob, fs, [], ops, start).1 == Completed && KnownScopes(rules)
    ensures match Replay(glob, fs, FreshStates(rules), ops, start).1
      case Completed => forall k :: start <= k < |ops| ==> NoneDue(glob, rules, |rules|, ops, start, k)
      case Failed(k, Injected(r)) => FirstDue(glob, rules, ops, start, k, r)
      case _ => false
  {
    hide *;
    FaultsDecideReplay(glob, rules, fs, ops, start);
    PointsLength(ops, start);
    AllAreNormal(glob, fs, ops, start);
    match Replay(glob, fs, FreshStates(rules), ops, start).1
    case Completed => SilenceMeansNone(glob, rules, ops, start);
    case Failed(k, Injected(r)) => FirstFaultIsDue(glob, rules, ops, start, k - start, r);
    case _ =>
  }

  lemma AllAreNormal(glob: Glob, fs: Fs, ops: seq<RawOperation>, start: nat)
    requires start <= |ops| && Replay(glob, fs, [], ops, start).1 == Completed
    ensures AllNormal(ops, start)
  {
    hide Replay, NormalizeOperation;
    forall k | start <= k < |ops| ensures NormalizeOperation(ops[k]).Ok? { CompletedIsNormal(glob, fs, ops, start, k); }
  }

  lemma SilenceMeansNone(glob: Glob, rules: seq<Rule>, ops: seq<RawOperation>, start: nat)
    requires start <= |ops| == start + |Points(ops, start)| && KnownScopes(rules) && AllNormal(ops, start)
    requires forall j :: 0 <= j < |ops| - start ==> SilentAt(glob, rules, Points(ops, start), j)
    ensures forall k :: start <= k < |ops| ==> NoneDue(glob, rules, |rules|, ops, start, k)
  {
    hide NoneDue, SilentAt, Points, AllNormal, KnownScopes;
    forall k | start <= k < |ops| ensures NoneDue(glob, rules, |rules|, ops, start, k) {
      assert SilentAt(glob, rules, Points(ops, start), k - start);
      SilentIsNone(glob, rules, ops, start, k - start);
    }
  }

  // ---------------------------------------------------------------- planned streams replay

  /** The real tree after a stream of normal operations, if none is refused. */
  function RealRun(fs: Fs, ops: seq<NormalOperation>): Result<Fs, RealError>
    decreases ops
  {
    if ops == [] then Ok(fs)
    else
      var next :- RealStep(fs, ops[0]);
      RealRun(next, ops[1..])
  }

  /** Every step of a whole run has the effect its operation says. */
  lemma {:induction false} RunLeaves(fs: Fs, ops: seq<NormalOperation>, k: nat)
    requires Sound(fs) && k <= |ops| && RealRun(fs, ops).Ok?
    ensures RealRun(fs, ops[..k]).Ok? && Sound(RealRun(fs, ops[..k]).value)
    ensures k < |ops| ==> RealRun(fs, ops[..k + 1]).Ok? && Effect(RealRun(fs, ops[..k]).value, ops[k], RealRun(fs, ops[..k + 1]).value)
    decreases ops
  {
    hide Sound, Effect, RealStep;
    if ops != [] { StepLeaves(fs, ops[0]); }
    if k == 0 {
      assert ops[..0] == [] && (ops != [] ==> ops[..1] == [ops[0]] && ops[..1][1..] == []);
    } else {
      assert ops[..k][0] == ops[0] && ops[..k][1..] == ops[1..][..k - 1];
      if k < |ops| { assert ops[..k + 1][0] == ops[0] && ops[..k + 1][1..] == ops[1..][..k]; }
      RunLeaves(RealStep(fs, ops[0]).value, ops[1..], k - 1);
    }
  }

  ghost predicate NoSymlinks(nodes: VT.Nodes) {
    forall p :: p in nodes ==> nodes[p].kind != VT.SymlinkNode
  }

  /**
    Kinds whose real effect the virtual tree tracks: chmod and attribute calls only where there
    are no symlinks for them to meet.
   */
  ghost predicate TrackedKinds(nodes: VT.Nodes, kinds: seq<Kind>) {
    KChmod in kinds || KSetXAttr in kinds || KRemoveXAttr in kinds ==> KCreateSymlink !in kinds && NoSymlinks(nodes)
  }

  /** defaultOperationKinds */
  const DEFAULT_KINDS := [KCreateFile, KCreateDir, KDelete, KRename, KChmod, KTruncate, KAppend, KOverwriteRange]

  /** Any choice of the default kinds is tracked over a tree without symlinks, and makes no hard link. */
  lemma DefaultKindsTracked(nodes: VT.Nodes, kinds: seq<Kind>)
    requires NoSymlinks(nodes) && forall k :: k in kinds ==> k in DEFAULT_KINDS
    ensures TrackedKinds(nodes, kinds) && KCreateHardlink !in kinds
  {
  }

  lemma StepKeepsNoSymlinks(nodes: VT.Nodes, op: NormalOperation)
    requires VT.Tree(nodes) && NoSymlinks(nodes) && !op.CreateSymlink? && VT.Step(nodes, op).Ok?
    ensures NoSymlinks(VT.Step(nodes, op).value)
  {
    match op
    case Rename(source, destination) =>
      VT.StepRename(nodes, source, destination);
      MoveKeepsNoSymlinks(nodes, source, destination);
    case _ =>
  }

  lemma MoveKeepsNoSymlinks(nodes: VT.Nodes, source: Path, destination: Path)
    requires NoSymlinks(nodes)
    ensures NoSymlinks(VT.MoveSubtree(nodes, source, destination))
  {
    var next := VT.MoveSubtree(nodes, source, destination);
    forall p | p in next ensures next[p].kind != VT.SymlinkNode {
      if p in VT.MovedSubtree(nodes, source, destination) {
        VT.MovedFrom(nodes, source, destination, p);
      }
    }
  }

  lemma PlannedStepAgrees(nodes: VT.Nodes, fs: Fs, op: NormalOperation, kinds: seq<Kind>)
    requires Simulates(nodes, fs) && TrackedKinds(nodes, kinds)
    requires WellFormed(op) && KindOf(op) in kinds && VT.Step(nodes, op).Ok?
    requires op.OverwriteRange? ==> VT.Step(nodes, op) == Ok(nodes)
    ensures RealStep(fs, op).Ok? && (Simulates(VT.Step(nodes, op).value, RealStep(fs, op).value) <==> !ChangesShared(nodes, fs, op))
    ensures Unshared(fs) && KCreateHardlink !in kinds ==> Unshared(RealStep(fs, op).value)
  {
    hide RealStep, WellFormed, Mirrors, Grounded, ChangesShared, Unshared;
    assert Tracked(nodes, op);
    InPlaceStartsInside(nodes, op);
    StepAgrees(nodes, fs, op);
  }

  lemma StepKeepsTracked(nodes: VT.Nodes, op: NormalOperation, kinds: seq<Kind>)
    requires VT.Tree(nodes) && TrackedKinds(nodes, kinds) && KindOf(op) in kinds && VT.Step(nodes, op).Ok?
    ensures TrackedKinds(VT.Step(nodes, op).value, kinds)
  {
    hide VT.Tree, VT.Step, NoSymlinks;
    if NoSymlinks(nodes) && !op.CreateSymlink? { StepKeepsNoSymlinks(nodes, op); }
  }

  lemma SimulatedTree(nodes: VT.Nodes, fs: Fs)
    requires Simulates(nodes, fs)
    ensures VT.Tree(nodes)
  {
  }

  lemma InPlaceStartsInside(nodes: VT.Nodes, op: NormalOperation)
    requires op.OverwriteRange? ==> VT.Step(nodes, op) == Ok(nodes)
    ensures !StartsBeyondEnd(nodes, op)
  {
    if op.OverwriteRange? && op.path in nodes && nodes[op.path].kind == VT.FileNode {
      assert VT.Step(nodes, op).value[op.path].size == nodes[op.path].size;
    }
  }

  /** What a good stream promises at each position. */
  lemma {:induction false} GoodStreamAt(nodes: VT.Nodes, ops: seq<NormalOperation>, kinds: seq<Kind>, k: nat)
    requires GoodStream(nodes, ops, kinds) && k < |ops|
    ensures var at := VT.Run(nodes, ops[..k]);
      && WellFormed(ops[k]) && KindOf(ops[k]) in kinds && VT.Step(at, ops[k]).Ok?
      && (ops[k].OverwriteRange? ==> VT.Step(at, ops[k]) == Ok(at))
      && VT.Run(nodes, ops[..k + 1]) == VT.Step(at, ops[k]).value
    decreases ops
  {
    hide WellFormed, VT.Step;
    var next := VT.Step(nodes, ops[0]).value;
    assert ops[..k + 1][0] == ops[0] && ops[..k + 1][1..] == ops[1..][..k];
    if k > 0 {
      assert ops[..k][0] == ops[0] && ops[..k][1..] == ops[1..][..k - 1] && ops[1..][k - 1] == ops[k];
      GoodStreamAt(next, ops[1..], kinds, k - 1);
    }
  }

  lemma {:induction false} RealRunSnoc(fs: Fs, ops: seq<NormalOperation>, k: nat)
    requires k < |ops| && RealRun(fs, ops[..k]).Ok?
    ensures RealRun(fs, ops[..k + 1]) == RealStep(RealRun(fs, ops[..k]).value, ops[k])
    decreases ops
  {
    hide RealStep;
    assert ops[..k + 1][0] == ops[0] && ops[..k + 1][1..] == ops[1..][..k];
    if k > 0 {
      assert ops[..k][0] == ops[0] && ops[..k][1..] == ops[1..][..k - 1] && ops[1..][k - 1] == ops[k];
      RealRunSnoc(RealStep(fs, ops[0]).value, ops[1..], k - 1);
    }
  }

  lemma {:induction false} TrackedAt(nodes: VT.Nodes, ops: seq<NormalOperation>, kinds: seq<Kind>, k: nat)
    requires VT.Tree(nodes) && TrackedKinds(nodes, kinds) && GoodStream(nodes, ops, kinds) && k <= |ops|
    ensures VT.Tree(VT.Run(nodes, ops[..k])) && TrackedKinds(VT.Run(nodes, ops[..k]), kinds)
  {
    hide VT.Tree, VT.Step, TrackedKinds, WellFormed, GoodStream;
    if k > 0 {
      TrackedAt(nodes, ops, kinds, k - 1);
      GoodStreamAt(nodes, ops, kinds, k - 1);
      var at := VT.Run(nodes, ops[..k - 1]);
      VT.StepKeepsTree(at, ops[k - 1]);
      StepKeepsTracked(at, ops[k - 1], kinds);
    }
  }

  /** The real run got as far as operation `k`, and that operation leaves another name of its inode behind. */
  ghost predicate DisturbedAt(nodes: VT.Nodes, fs: Fs, ops: seq<NormalOperation>, k: nat)
    requires k < |ops|
  {
    RealRun(fs, ops[..k]).Ok? && ChangesShared(VT.Run(nodes, ops[..k]), RealRun(fs, ops[..k]).value, ops[k])
  }

  lemma PrefixStep(nodes: VT.Nodes, fs: Fs, ops: seq<NormalOperation>, kinds: seq<Kind>, k: nat)
    requires VT.Tree(nodes) && TrackedKinds(nodes, kinds) && GoodStream(nodes, ops, kinds)
    requires k < |ops| && PrefixAgrees(nodes, fs, ops, k)
    ensures PrefixAgrees(nodes, fs, ops, k + 1) <==> !DisturbedAt(nodes, fs, ops, k)
    ensures Unshared(RealRun(fs, ops[..k]).value) && KCreateHardlink !in kinds ==>
      PrefixAgrees(nodes, fs, ops, k + 1) && Unshared(RealRun(fs, ops[..k + 1]).value)
  {
    hide Simulates, VT.Tree, TrackedKinds, GoodStream, WellFormed, VT.Step, RealStep, ChangesShared, Unshared;
    TrackedAt(nodes, ops, kinds, k);
    GoodStreamAt(nodes, ops, kinds, k);
    RealRunSnoc(fs, ops, k);
    var at, actual := VT.Run(nodes, ops[..k]), RealRun(fs, ops[..k]).value;
    PlannedStepAgrees(at, actual, ops[k], kinds);
    if Unshared(actual) { UnsharedNeverDiverges(at, actual, ops[k]); }
  }

  lemma NoStepsAgree(nodes: VT.Nodes, fs: Fs, ops: seq<NormalOperation>)
    requires Simulates(nodes, fs)
    ensures PrefixAgrees(nodes, fs, ops, 0) && RealRun(fs, ops[..0]) == Ok(fs) && VT.Tree(nodes)
  {
    assert ops[..0] == [];
  }

  lemma {:induction false} UndisturbedAgrees(nodes: VT.Nodes, fs: Fs, ops: seq<NormalOperation>, kinds: seq<Kind>, k: nat)
    requires Simulates(nodes, fs) && TrackedKinds(nodes, kinds) && GoodStream(nodes, ops, kinds)
    requires k <= |ops| && forall i :: 0 <= i < k ==> !DisturbedAt(nodes, fs, ops, i)
    ensures PrefixAgrees(nodes, fs, ops, k)
  {
    hide Simulates, TrackedKinds, GoodStream, DisturbedAt, VT.Tree, PrefixAgrees, RealRun, Unshared;
    NoStepsAgree(nodes, fs, ops);
    if k > 0 {
      UndisturbedAgrees(nodes, fs, ops, kinds, k - 1);
      PrefixStep(nodes, fs, ops, kinds, k - 1);
    }
  }

  /**
    When a stream with hard links agrees: after every prefix both trees have the same paths,
    types, sizes and attribute names if and only if no operation leaves a second name behind.
   */
  lemma StreamAgrees(nodes: VT.Nodes, fs: Fs, ops: seq<NormalOperation>, kinds: seq<Kind>)
    requires Simulates(nodes, fs) && TrackedKinds(nodes, kinds) && GoodStream(nodes, ops, kinds)
    ensures (forall k :: 0 <= k <= |ops| ==> PrefixAgrees(nodes, fs, ops, k))
       <==> (forall k :: 0 <= k < |ops| ==> !DisturbedAt(nodes, fs, ops, k))
  {
    hide Simulates, TrackedKinds, GoodStream, DisturbedAt, VT.Tree, PrefixAgrees, RealRun, Unshared;
    NoStepsAgree(nodes, fs, ops);
    if forall k :: 0 <= k <= |ops| ==> PrefixAgrees(nodes, fs, ops, k) {
      forall k | 0 <= k < |ops| ensures !DisturbedAt(nodes, fs, ops, k) {
        assert PrefixAgrees(nodes, fs, ops, k) && PrefixAgrees(nodes, fs, ops, k + 1);
        PrefixStep(nodes, fs, ops, kinds, k);
      }
    }
    if forall k :: 0 <= k < |ops| ==> !DisturbedAt(nodes, fs, ops, k) {
      forall k | 0 <= k <= |ops| ensures PrefixAgrees(nodes, fs, ops, k) {
        UndisturbedAgrees(nodes, fs, ops, kinds, k);
      }
    }
  }

  /** Without hard links, before or in the stream, every prefix agrees. */
  lemma {:induction false} UnlinkedAgrees(nodes: VT.Nodes, fs: Fs, ops: seq<NormalOperation>, kinds: seq<Kind>, k: nat)
    requires Simulates(nodes, fs) && TrackedKinds(nodes, kinds) && GoodStream(nodes, ops, kinds)
    requires Unshared(fs) && KCreateHardlink !in kinds && k <= |ops|
    ensures PrefixAgrees(nodes, fs, ops, k) && RealRun(fs, ops[..k]).Ok? && Unshared(RealRun(fs, ops[..k]).value)
  {
    hide Simulates, TrackedKinds, GoodStream, VT.Tree, PrefixAgrees, RealRun, Unshared, DisturbedAt;
    NoStepsAgree(nodes, fs, ops);
    if k > 0 {
      UnlinkedAgrees(nodes, fs, ops, kinds, k - 1);
      PrefixStep(nodes, fs, ops, kinds, k - 1);
      PrefixRuns(nodes, fs, ops, k);
    }
  }

  lemma PrefixRuns(nodes: VT.Nodes, fs: Fs, ops: seq<NormalOperation>, k: nat)
    requires k <= |ops| && PrefixAgrees(nodes, fs, ops, k)
    ensures RealRun(fs, ops[..k]).Ok?
  {
  }

  function RenderAll(ops: seq<NormalOperation>): seq<RawOperation> {
    seq(|ops|, i requires 0 <= i < |ops| => RenderOperation(ops[i]))
  }

  lemma {:induction false} ReplayIsRun(glob: Glob, fs: Fs, ops: seq<NormalOperation>, i: nat)
    requires i <= |ops| && forall k :: 0 <= k < |ops| ==> WellFormed(ops[k])
    requires RealRun(fs, ops[i..]).Ok?
    ensures Replay(glob, fs, [], RenderAll(ops), i) == (RealRun(fs, ops[i..]).value, Completed)
    decreases |ops| - i
  {
    hide WellFormed, RealStep, NormalizeOperation;
    if i < |ops| {
      assert ops[i..][0] == ops[i] && ops[i..][1..] == ops[i + 1..];
      WellFormedIsFixpoint(ops[i]);
      NoRulesNoFault(glob, PointOf(ops[i], i));
      ReplayIsRun(glob, RealStep(fs, ops[i]).value, ops, i + 1);
    }
  }

  /**
    The simulation theorem: over a baseline the virtual tree mirrors, hard links included, a
    generated stream of tracked kinds agrees with the real tree after each of its steps exactly
    when no operation leaves a second name behind. Then it replays from its exported form
    without error. Without hard links that is always so.
   */
  lemma GeneratedStreamReplays(glob: Glob, nodes: VT.Nodes, fs: Fs, ops: seq<NormalOperation>, kinds: seq<Kind>)
    requires Simulates(nodes, fs) && TrackedKinds(nodes, kinds) && GoodStream(nodes, ops, kinds)
    ensures (forall k :: 0 <= k <= |ops| ==> PrefixAgrees(nodes, fs, ops, k))
       <==> (forall k :: 0 <= k < |ops| ==> !DisturbedAt(nodes, fs, ops, k))
    ensures (forall k :: 0 <= k < |ops| ==> !DisturbedAt(nodes, fs, ops, k)) ==>
      RealRun(fs, ops).Ok? && Replay(glob, fs, [], RenderAll(ops), 0) == (RealRun(fs, ops).value, Completed)
    ensures Unshared(fs) && KCreateHardlink !in kinds ==> forall k :: 0 <= k < |ops| ==> !DisturbedAt(nodes, fs, ops, k)
  {
    hide Simulates, TrackedKinds, WellFormed, VT.Step, RealStep, GoodStream, DisturbedAt, PrefixAgrees, Unshared;
    StreamAgrees(nodes, fs, ops, kinds);
    if Unshared(fs) && KCreateHardlink !in kinds {
      forall k | 0 <= k <= |ops| ensures PrefixAgrees(nodes, fs, ops, k) { UnlinkedAgrees(nodes, fs, ops, kinds, k); }
    }
    if forall k :: 0 <= k < |ops| ==> !DisturbedAt(nodes, fs, ops, k) {
      PrefixRuns(nodes, fs, ops, |ops|);
      assert ops[..|ops|] == ops && ops[0..] == ops;
      forall k | 0 <= k < |ops| ensures WellFormed(ops[k]) { GoodStreamAt(nodes, ops, kinds, k); }
      ReplayIsRun(glob, fs, ops, 0);
    }
  }

  ghost predicate PrefixAgrees(nodes: VT.Nodes, fs: Fs, ops: seq<NormalOperation>, k: nat)
    requires k <= |ops|
  {
    RealRun(fs, ops[..k]).Ok? && Simulates(VT.Run(nodes, ops[..k]), RealRun(fs, ops[..k]).value)
  }

  /**
    An instance: after linking `p` to `source` and appending to `source`, both sides have accepted
    both operations, and they disagree, always.
   */
  lemma HardlinkThenAppendDiverges(nodes: VT.Nodes, fs: Fs, source: Path, p: Path, data: seq<Byte>)
    requires Simulates(nodes, fs) && Canonical(p) && Canonical(source) && data != []
    requires VT.Step(nodes, CreateHardlink(p, source)).Ok? && p != [] && source != []
    ensures var linked := VT.Step(nodes, CreateHardlink(p, source)).value;
      var appended := VT.Step(linked, Append(source, data));
      var realLinked := RealStep(fs, CreateHardlink(p, source));
      && appended.Ok? && realLinked.Ok?
      && RealStep(realLinked.value, Append(source, data)).Ok?
      && !Mirrors(appended.value, RealStep(realLinked.value, Append(source, data)).value)
  {
    var linked := VT.Step(nodes, CreateHardlink(p, source)).value;
    LinkGoesThrough(nodes, fs, source, p);
    var realLinked := RealStep(fs, CreateHardlink(p, source)).value;
    hide RealStep, Grounded, Mirrors;
    StepAgrees(linked, realLinked, Append(source, data));
    assert ChangesShared(linked, realLinked, Append(source, data));
  }

  lemma LinkGoesThrough(nodes: VT.Nodes, fs: Fs, source: Path, p: Path)
    requires Simulates(nodes, fs) && Canonical(p) && Canonical(source)
    requires VT.Step(nodes, CreateHardlink(p, source)).Ok? && p != [] && source != []
    ensures RealStep(fs, CreateHardlink(p, source)).Ok?
    ensures var linked, realLinked := VT.Step(nodes, CreateHardlink(p, source)).value, RealStep(fs, CreateHardlink(p, source)).value;
      Simulates(linked, realLinked) && Shared(realLinked, source)
      && source in linked && linked[source].kind == VT.FileNode
  {
    LinkAgrees(nodes, fs, p, source);
    var realLinked := RealStep(fs, CreateHardlink(p, source)).value;
    LinkShares(fs, source, p);
    hide Grounded, Mirrors, Link;
    assert p in realLinked.tree;
  }

  lemma LinkShares(fs: Fs, source: Path, p: Path)
    requires RealStep(fs, CreateHardlink(p, source)).Ok?
    ensures var next := RealStep(fs, CreateHardlink(p, source)).value;
      p != source && p in next.tree && source in next.tree && next.tree[p] == next.tree[source]
  {
  }
}
