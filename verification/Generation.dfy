/**
  mutate.go's `GenerateOperations` and the options it takes: planning a stream against the
  virtual tree, why planning stops, and when it cannot.
 */
module Generation {
  import opened Wrappers
  import opened Sorting
  import opened Paths
  import opened Operations
  import VT = VirtualTree
  import opened MutationNames
  import opened MutationState

  // ---------------------------------------------------------------- generation

  datatype OptionsError = CountNotPositive | MaxDataSizeNotPositive | KindsEmpty | KindUnknown | KindDuplicated

  datatype GenerateError =
    | InvalidOptions(options: OptionsError)
    | PlanFailed(index: nat, plan: PlanError)
    | NormalizeFailed(index: nat)

  ghost predicate ValidOptions(count: int, maxDataSize: int, kinds: seq<Kind>) {
    count > 0 && maxDataSize > 0 && kinds != [] && Distinct(kinds) && forall k :: k in kinds ==> !k.KUnknown?
  }

  /** OperationGenerationOptions.validate */
  method ValidateOptions(count: int, maxDataSize: int, kinds: seq<Kind>) returns (error: Option<OptionsError>)
    ensures error.None? <==> ValidOptions(count, maxDataSize, kinds)
    ensures error == Some(CountNotPositive) <==> count <= 0
    ensures error == Some(MaxDataSizeNotPositive) <==> count > 0 && maxDataSize <= 0
    ensures error == Some(KindsEmpty) <==> count > 0 && maxDataSize > 0 && kinds == []
    ensures error == Some(KindUnknown) ==> exists k :: k in kinds && k.KUnknown?
    ensures error == Some(KindDuplicated) ==> !Distinct(kinds)
  {
    if count <= 0 { return Some(CountNotPositive); }
    if maxDataSize <= 0 { return Some(MaxDataSizeNotPositive); }
    if |kinds| == 0 { return Some(KindsEmpty); }
    var seen: set<Kind> := {};
    for i := 0 to |kinds|
      invariant seen == set k | k in kinds[..i]
      invariant Distinct(kinds[..i]) && forall k :: k in kinds[..i] ==> !k.KUnknown?
    {
      assert kinds[i] in kinds;
      if kinds[i].KUnknown? { return Some(KindUnknown); }
      if kinds[i] in seen {
        var j :| 0 <= j < i && kinds[j] == kinds[i];
        return Some(KindDuplicated);
      }
      seen := seen + {kinds[i]};
      assert kinds[..i + 1] == kinds[..i] + [kinds[i]];
    }
    assert kinds[..|kinds|] == kinds;
    return None;
  }

  /** A stream every operation of which is normal, of an allowed kind, accepted in turn, and in place. */
  ghost predicate GoodStream(nodes: VT.Nodes, ops: seq<NormalOperation>, kinds: seq<Kind>)
    decreases ops
  {
    ops == [] ||
    (&& WellFormed(ops[0]) && KindOf(ops[0]) in kinds
     && VT.Step(nodes, ops[0]).Ok?
     && (ops[0].OverwriteRange? ==> VT.Step(nodes, ops[0]) == Ok(nodes))
     && GoodStream(VT.Step(nodes, ops[0]).value, ops[1..], kinds))
  }

  lemma {:induction false} GoodStreamSnoc(nodes: VT.Nodes, ops: seq<NormalOperation>, op: NormalOperation, kinds: seq<Kind>)
    requires GoodStream(nodes, ops, kinds) && WellFormed(op) && KindOf(op) in kinds
    requires VT.Step(VT.Run(nodes, ops), op).Ok?
    requires op.OverwriteRange? ==> VT.Step(VT.Run(nodes, ops), op) == Ok(VT.Run(nodes, ops))
    ensures GoodStream(nodes, ops + [op], kinds)
    ensures VT.Run(nodes, ops + [op]) == VT.Step(VT.Run(nodes, ops), op).value
    decreases ops
  {
    hide WellFormed, VT.Step;
    if ops == [] {
      assert ops + [op] == [op] && [op][1..] == [];
    } else {
      var next := VT.Step(nodes, ops[0]).value;
      assert (ops + [op])[0] == ops[0] && (ops + [op])[1..] == ops[1..] + [op];
      GoodStreamSnoc(next, ops[1..], op, kinds);
    }
  }

  /** Every operation of the stream keeps to the options, in the state it was planned in. */
  ghost predicate ConfiguredStream(nodes: VT.Nodes, ops: seq<NormalOperation>, maxDataSize: int, uid: int, gid: int) {
    forall k :: 0 <= k < |ops| ==> AsConfigured(VT.Run(nodes, ops[..k]), ops[k], maxDataSize, uid, gid)
  }

  lemma ConfiguredSnoc(nodes: VT.Nodes, ops: seq<NormalOperation>, op: NormalOperation, maxDataSize: int, uid: int, gid: int)
    requires ConfiguredStream(nodes, ops, maxDataSize, uid, gid) && AsConfigured(VT.Run(nodes, ops), op, maxDataSize, uid, gid)
    ensures ConfiguredStream(nodes, ops + [op], maxDataSize, uid, gid)
  {
    hide AsConfigured;
    var all := ops + [op];
    forall k | 0 <= k < |all| ensures AsConfigured(VT.Run(nodes, all[..k]), all[k], maxDataSize, uid, gid) {
      assert all[..k] == ops[..k];
      if k == |ops| { assert ops[..k] == ops; }
    }
  }

  /** Generation stopped at `index`: the stream so far is good, and no kind can be planned after it. */
  ghost predicate StoppedAt(baseline: VT.Nodes, kinds: seq<Kind>, index: nat, error: PlanError, owned: bool) {
    exists ops: seq<NormalOperation>, counter: nat, later: nat ::
      StoppedAfter(baseline, ops, kinds, index, error, counter, later, owned)
  }

  ghost predicate StoppedAfter(baseline: VT.Nodes, ops: seq<NormalOperation>, kinds: seq<Kind>, index: nat, error: PlanError,
                               counter: nat, later: nat, owned: bool)
  {
    && |ops| == index && GoodStream(baseline, ops, kinds)
    && FairStop(VT.Run(baseline, ops), kinds, error, counter, later, owned)
    && (UnusedFrom(baseline, 1) ==> UnusedFrom(VT.Run(baseline, ops), counter))
  }

  /** Kinds that can always be planned, since the root can hold a new file or an attribute. */
  predicate NeverUnlucky(kind: Kind) {
    kind == KCreateFile || kind == KCreateDir || kind == KSetXAttr
  }

  /** A kind that never lacks anything, no renames, no generated-style names, no attribute without a namespace. */
  ghost predicate CannotStop(baseline: VT.Nodes, kinds: seq<Kind>) {
    (exists kind :: kind in kinds && NeverUnlucky(kind)) && KRename !in kinds && UnusedFrom(baseline, 1) && XAttrsNamed(baseline)
  }

  /** With a kind that never lacks anything, only collisions, rename destinations and unknown kinds can stop the planner. */
  lemma StopsOnly(baseline: VT.Nodes, kinds: seq<Kind>, index: nat, error: PlanError, owned: bool)
    requires StoppedAt(baseline, kinds, index, error, owned)
    ensures UnusedFrom(baseline, 1) ==> error != CollisionExhausted
    ensures (exists kind :: kind in kinds && NeverUnlucky(kind)) ==> error != Preconditions
    ensures KRename !in kinds ==> error != RenameDestinationExhausted
    ensures (forall kind :: kind in kinds ==> !kind.KUnknown?) ==> error != UnsupportedKind
  {
    hide UnusedFrom, GoodStream, Exhausted, HasInnerDirectory;
    var ops, counter: nat, later: nat :| StoppedAfter(baseline, ops, kinds, index, error, counter, later, owned);
    var nodes := VT.Run(baseline, ops);
    if UnusedFrom(nodes, counter) { UnusedIsNotExhausted(nodes, counter); }
  }

  /**
    GenerateOperations after the scan. It refuses exactly the invalid options; a returned stream
    is good from the baseline; a planning failure comes with a good stream after which it had
    its cause; planned operations are never refused by the virtual tree, and by normalisation
    only when the baseline had attribute names without a namespace. So with a kind that never
    lacks anything, no renames, and no generated-style names in the baseline, it succeeds.
   */
  method GenerateOperations(baseline: VT.Nodes, count: int, maxDataSize: int, kinds: seq<Kind>, uid: int, gid: int)
      returns (result: Result<seq<NormalOperation>, GenerateError>)
    requires VT.Tree(baseline)
    ensures result.Ok? ==> |result.value| == count && GoodStream(baseline, result.value, kinds)
    ensures result.Ok? ==> ConfiguredStream(baseline, result.value, maxDataSize, uid, gid)
    ensures result.Err? && result.error.InvalidOptions? <==> !ValidOptions(count, maxDataSize, kinds)
    ensures result.Err? && result.error.NormalizeFailed? ==> !XAttrsNamed(baseline)
    ensures result.Err? && result.error.PlanFailed? ==>
      result.error.index < count && StoppedAt(baseline, kinds, result.error.index, result.error.plan, uid >= 0 && gid >= 0)
    ensures ValidOptions(count, maxDataSize, kinds) && CannotStop(baseline, kinds) ==> result.Ok?
  {
    hide VT.Tree, XAttrsNamed, UnusedFrom, GoodPlan, WellFormed, VT.Step, NormalizeOperation, FairStop, StoppedAt, Distinct, NeverUnlucky, AsConfigured;
    var invalid := ValidateOptions(count, maxDataSize, kinds);
    if invalid.Some? { return Err(InvalidOptions(invalid.value)); }
    var state := new MutationState(baseline);
    var ops: seq<NormalOperation> := [];
    for i := 0 to count
      invariant |ops| == i && GoodStream(baseline, ops, kinds) && state.nodes == VT.Run(baseline, ops)
      invariant ConfiguredStream(baseline, ops, maxDataSize, uid, gid)
      invariant state.Valid() && fresh(state)
      invariant XAttrsNamed(baseline) ==> XAttrsNamed(state.nodes)
      invariant UnusedFrom(baseline, 1) ==> UnusedFrom(state.nodes, state.nameSeq)
    {
      ghost var nodes := state.nodes;
      ghost var counter := state.nameSeq;
      var planned := state.PlanNextOperation(kinds, maxDataSize, uid, gid);
      if planned.Err? {
        Stopped(baseline, ops, kinds, planned.error, counter, state.nameSeq, uid >= 0 && gid >= 0);
        StopsOnly(baseline, kinds, i, planned.error, uid >= 0 && gid >= 0);
        return Err(PlanFailed(i, planned.error));
      }
      var op := planned.value;
      var normalized := NormalizeOperation(RenderOperation(op));
      PlannedIsNormal(nodes, op, state.nameSeq);
      if normalized.Err? { return Err(NormalizeFailed(i)); }
      assert normalized.value == op;
      var refused := state.ApplyVirtualOperation(op);
      if refused.Some? {
        assert false;   // the virtual tree never refuses a planned operation
      }
      GoodStreamSnoc(baseline, ops, op, kinds);
      ConfiguredSnoc(baseline, ops, op, maxDataSize, uid, gid);
      StepKeepsAll(nodes, op, counter, state.nameSeq);
      ops := ops + [op];
    }
    return Ok(ops);
  }

  lemma Stopped(baseline: VT.Nodes, ops: seq<NormalOperation>, kinds: seq<Kind>, error: PlanError, counter: nat, later: nat, owned: bool)
    requires GoodStream(baseline, ops, kinds) && FairStop(VT.Run(baseline, ops), kinds, error, counter, later, owned)
    requires UnusedFrom(baseline, 1) ==> UnusedFrom(VT.Run(baseline, ops), counter)
    ensures StoppedAt(baseline, kinds, |ops|, error, owned)
  {
    hide FairStop, UnusedFrom, GoodStream;
    assert StoppedAfter(baseline, ops, kinds, |ops|, error, counter, later, owned);
  }

  /** A planned operation either is a fixpoint of normalisation or names an attribute without a namespace. */
  lemma PlannedIsNormal(nodes: VT.Nodes, op: NormalOperation, counter: nat)
    requires GoodPlan(nodes, KindOf(op), op, counter)
    ensures WellFormed(op) <==> NormalizeOperation(RenderOperation(op)) == Ok(op)
    ensures NormalizeOperation(RenderOperation(op)).Ok? ==> NormalizeOperation(RenderOperation(op)) == Ok(op)
    ensures XAttrsNamed(nodes) ==> WellFormed(op)
    ensures WellFormed(op) ==> VT.Step(nodes, op).Ok?
    ensures op.OverwriteRange? ==> VT.Step(nodes, op) == Ok(nodes)
    ensures Introduced(op) != [] ==> IntroducesUsedName(op, counter)
  {
    WellFormedIsFixpoint(op);
    if op.RemoveXAttr? {
      RemovalNormalizes(op);
      if XAttrsNamed(nodes) { assert NamesValid(nodes[op.path].xattrs); }
    }
    hide WellFormed, VT.Step, NormalizeOperation, ValidateXAttrName;
  }

  lemma RemovalNormalizes(op: NormalOperation)
    requires op.RemoveXAttr? && Canonical(op.path)
    ensures WellFormed(op) <==> ValidateXAttrName(op.xattrName).Ok?
    ensures NormalizeOperation(RenderOperation(op)).Ok? ==> WellFormed(op)
  {
    hide ValidateXAttrName, NormalizePath, ValidName;
    NormalizePathFixpoint(op.path, true);
  }

  lemma StepKeepsAll(nodes: VT.Nodes, op: NormalOperation, counter: nat, later: nat)
    requires VT.Tree(nodes) && WellFormed(op) && VT.Step(nodes, op).Ok? && counter <= later
    requires Introduced(op) != [] ==> IntroducesUsedName(op, later)
    ensures VT.Tree(VT.Step(nodes, op).value)
    ensures XAttrsNamed(nodes) ==> XAttrsNamed(VT.Step(nodes, op).value)
    ensures UnusedFrom(nodes, counter) ==> UnusedFrom(VT.Step(nodes, op).value, later)
  {
    hide WellFormed, VT.Step, VT.Tree, XAttrsNamed, UnusedFrom;
    VT.StepKeepsTree(nodes, op);
    if XAttrsNamed(nodes) { StepKeepsXAttrsNamed(nodes, op); }
    if UnusedFrom(nodes, counter) { StepKeepsUnused(nodes, op, counter, later); }
  }
}
