/**
  faults.go: deterministic fault injection. Rules count the execution points they match; a rule
  fires when its count reaches `nth`, and the first rule to fire ends the scan. path.Match is a
  parameter: `valid` says which patterns it accepts, `matches` what they match.
 */
module Faults {
  import opened Wrappers

  datatype Scope = AnyScope | RunScope | MutationScope | UnknownScope(code: nat)

  datatype Rule = Rule(nth: int, scope: Scope, kind: string, pattern: string)

  datatype Point = Point(scope: Scope, kind: string, path: string, index: nat)

  datatype RuleState = RuleState(rule: Rule, matchCount: nat, triggered: bool)

  datatype Glob = Glob(valid: string -> bool, matches: (string, string) -> bool)

  predicate ValidRule(glob: Glob, rule: Rule) {
    rule.nth > 0 && !rule.scope.UnknownScope? && (rule.pattern != "" ==> glob.valid(rule.pattern))
  }

  /** faultRuleMatchesPoint, on a rule whose pattern has been validated. */
  predicate RuleMatches(glob: Glob, rule: Rule, point: Point) {
    && (rule.scope == AnyScope || rule.scope == point.scope)
    && (rule.kind == "" || rule.kind == point.kind)
    && (rule.pattern == "" || glob.matches(rule.pattern, point.path))
  }

  function Fresh(rule: Rule): RuleState {
    RuleState(rule, 0, false)
  }

  function FreshStates(rules: seq<Rule>): seq<RuleState> {
    seq(|rules|, i requires 0 <= i < |rules| => Fresh(rules[i]))
  }

  /** `before`, from rule `r` on: the rule states after the point, and the rule that fires. */
  function Scan(glob: Glob, states: seq<RuleState>, point: Point, r: nat): (seq<RuleState>, Option<nat>)
    decreases |states| - r
  {
    if r >= |states| then (states, None)
    else
      var state := states[r];
      if state.triggered || !RuleMatches(glob, state.rule, point) then Scan(glob, states, point, r + 1)
      else if state.matchCount + 1 != state.rule.nth then
        Scan(glob, states[r := state.(matchCount := state.matchCount + 1)], point, r + 1)
      else (states[r := state.(matchCount := state.matchCount + 1, triggered := true)], Some(r))
  }

  /** The injector's state array is updated in place. */
  class FaultInjector {
    const glob: Glob
    const rules: array<RuleState>

    constructor (glob: Glob, profile: seq<Rule>)
      ensures this.glob == glob && fresh(rules) && rules[..] == FreshStates(profile)
    {
      this.glob := glob;
      this.rules := new RuleState[|profile|](i requires 0 <= i < |profile| => Fresh(profile[i]));
      new;
      assert rules[..] == FreshStates(profile);
    }

    method Before(point: Point) returns (fired: Option<nat>)
      modifies rules
      ensures (rules[..], fired) == Scan(glob, old(rules[..]), point, 0)
    {
      ghost var start := rules[..];
      for r := 0 to rules.Length
        invariant Scan(glob, start, point, 0) == Scan(glob, rules[..], point, r)
      {
        var state := rules[r];
        if state.triggered {
          continue;
        }
        if !RuleMatches(glob, state.rule, point) {
          continue;
        }
        ghost var was := rules[..];
        rules[r] := state.(matchCount := state.matchCount + 1);
        if state.matchCount + 1 != state.rule.nth {
          assert rules[..] == was[r := state.(matchCount := state.matchCount + 1)];
          continue;
        }
        rules[r] := state.(matchCount := state.matchCount + 1, triggered := true);
        assert rules[..] == was[r := state.(matchCount := state.matchCount + 1, triggered := true)];
        return Some(r);
      }
      return None;
    }
  }

  // ---------------------------------------------------------------- what the injector computes

  /** How many of the points a rule matches. */
  function Count(glob: Glob, rule: Rule, points: seq<Point>): nat {
    if points == [] then 0
    else
      Count(glob, rule, points[..|points| - 1])
      + if RuleMatches(glob, rule, points[|points| - 1]) then 1 else 0
  }

  /** The last point is the rule's nth match. */
  predicate Hits(glob: Glob, rule: Rule, points: seq<Point>) {
    points != [] && RuleMatches(glob, rule, points[|points| - 1]) && Count(glob, rule, points) == rule.nth
  }

  /** `r` is the lowest rule whose nth match is the last point. */
  ghost predicate LowestHit(glob: Glob, rules: seq<Rule>, points: seq<Point>, r: nat) {
    r < |rules| && Hits(glob, rules[r], points) && forall q :: 0 <= q < r ==> !Hits(glob, rules[q], points)
  }

  ghost predicate Silent(glob: Glob, rules: seq<Rule>, points: seq<Point>) {
    forall q :: 0 <= q < |rules| ==> !Hits(glob, rules[q], points)
  }

  /** No rule fires at point `j`. */
  ghost predicate SilentAt(glob: Glob, rules: seq<Rule>, points: seq<Point>, j: nat)
    requires j < |points|
  {
    Silent(glob, rules, points[..j + 1])
  }

  /** While nothing has fired, every count is exact: rules below `r` have seen `points` too. */
  ghost predicate Counting(glob: Glob, rules: seq<Rule>, states: seq<RuleState>, seen: seq<Point>, points: seq<Point>, r: nat) {
    && |states| == |rules|
    && forall q :: 0 <= q < |rules| ==>
         states[q] == RuleState(rules[q], Count(glob, rules[q], if q < r then points else seen), false)
  }

  lemma CountNext(glob: Glob, rule: Rule, seen: seq<Point>, point: Point)
    ensures Count(glob, rule, seen + [point]) ==
            Count(glob, rule, seen) + if RuleMatches(glob, rule, point) then 1 else 0
  {
    assert (seen + [point])[..|seen|] == seen;
  }

  /** Rule `r` looks at the point: its count moves exactly when it matches. */
  lemma CountingOneRule(glob: Glob, rules: seq<Rule>, states: seq<RuleState>, seen: seq<Point>, point: Point, r: nat)
    requires r < |rules| && Counting(glob, rules, states, seen, seen + [point], r)
    ensures states[r].rule == rules[r] && !states[r].triggered
    ensures Hits(glob, rules[r], seen + [point]) <==>
              RuleMatches(glob, rules[r], point) && states[r].matchCount + 1 == rules[r].nth
    ensures var counted := if RuleMatches(glob, rules[r], point)
                           then states[r := states[r].(matchCount := states[r].matchCount + 1)] else states;
      Counting(glob, rules, counted, seen, seen + [point], r + 1)
  {
    CountNext(glob, rules[r], seen, point);
  }

  ghost predicate NoHitBelow(glob: Glob, rules: seq<Rule>, points: seq<Point>, r: nat)
    requires r <= |rules|
  {
    forall q :: 0 <= q < r ==> !Hits(glob, rules[q], points)
  }

  /** What one scan of the rules establishes about the points seen so far. */
  ghost predicate ScanOutcome(glob: Glob, rules: seq<Rule>, points: seq<Point>, next: seq<RuleState>, fired: Option<nat>) {
    && (fired.Some? ==> LowestHit(glob, rules, points, fired.value))
    && (fired.None? ==> Silent(glob, rules, points) && Counting(glob, rules, next, points, points, 0))
  }

  lemma {:induction false} ScanCounts(glob: Glob, rules: seq<Rule>, states: seq<RuleState>, seen: seq<Point>, point: Point, r: nat)
    requires r <= |rules| == |states| && Counting(glob, rules, states, seen, seen + [point], r)
    requires NoHitBelow(glob, rules, seen + [point], r)
    ensures ScanOutcome(glob, rules, seen + [point], Scan(glob, states, point, r).0, Scan(glob, states, point, r).1)
    decreases |rules| - r
  {
    var points := seen + [point];
    if r == |rules| {
      assert Counting(glob, rules, states, points, points, 0);
    } else {
      CountingOneRule(glob, rules, states, seen, point, r);
      assert if Hits(glob, rules[r], points) then LowestHit(glob, rules, points, r) else NoHitBelow(glob, rules, points, r + 1);
      hide Counting, Hits, RuleMatches, Count, LowestHit, Silent, NoHitBelow;
      var counted := states[r := states[r].(matchCount := states[r].matchCount + 1)];
      if !RuleMatches(glob, rules[r], point) {
        ScanCounts(glob, rules, states, seen, point, r + 1);
      } else if states[r].matchCount + 1 != rules[r].nth {
        ScanCounts(glob, rules, counted, seen, point, r + 1);
      }
    }
  }

  /** Before any rule has looked at a point, what the points are does not matter. */
  lemma CountingAnew(glob: Glob, rules: seq<Rule>, states: seq<RuleState>, seen: seq<Point>, points: seq<Point>)
    requires Counting(glob, rules, states, seen, seen, 0)
    ensures |states| == |rules| && Counting(glob, rules, states, seen, points, 0)
  {
  }

  /** A run of points through the injector, up to the first fault: its index and its rule. */
  function FirstFault(glob: Glob, states: seq<RuleState>, points: seq<Point>, i: nat): Option<(nat, nat)>
    decreases |points| - i
  {
    if i >= |points| then None
    else
      var (next, fired) := Scan(glob, states, points[i], 0);
      if fired.Some? then Some((i, fired.value)) else FirstFault(glob, next, points, i + 1)
  }

  /** The characterisation of the first fault over a whole run of points. */
  ghost predicate IsFirstFault(glob: Glob, rules: seq<Rule>, points: seq<Point>, i: nat, r: nat) {
    && i < |points|
    && LowestHit(glob, rules, points[..i + 1], r)
    && forall j :: 0 <= j < i ==> SilentAt(glob, rules, points, j)
  }

  lemma {:induction false} FirstFaultFrom(glob: Glob, rules: seq<Rule>, states: seq<RuleState>, points: seq<Point>, i: nat)
    requires i <= |points| && Counting(glob, rules, states, points[..i], points[..i], 0)
    requires forall j :: 0 <= j < i ==> SilentAt(glob, rules, points, j)
    ensures match FirstFault(glob, states, points, i)
      case Some((k, r)) => IsFirstFault(glob, rules, points, k, r)
      case None => forall j :: 0 <= j < |points| ==> SilentAt(glob, rules, points, j)
    decreases |points| - i
  {
    hide Silent, LowestHit, Counting;
    if i < |points| {
      assert points[..i + 1] == points[..i] + [points[i]];
      CountingAnew(glob, rules, states, points[..i], points[..i + 1]);
      ScanCounts(glob, rules, states, points[..i], points[i], 0);
      var (next, fired) := Scan(glob, states, points[i], 0);
      if fired.None? {
        CountingAnew(glob, rules, next, points[..i + 1], points[..i + 1]);
        FirstFaultFrom(glob, rules, next, points, i + 1);
      }
    }
  }

  /**
    Over any sequence of execution points the first fault falls on the least index at which
    some rule reaches its nth match, and it names the lowest such rule; no fault means that no
    rule ever reaches its nth match.
   */
  lemma FirstFaultCharacterised(glob: Glob, rules: seq<Rule>, points: seq<Point>)
    ensures match FirstFault(glob, FreshStates(rules), points, 0)
      case Some((k, r)) => IsFirstFault(glob, rules, points, k, r)
      case None => forall j :: 0 <= j < |points| ==> SilentAt(glob, rules, points, j)
  {
    assert Counting(glob, rules, FreshStates(rules), [], [], 0);
    assert points[..0] == [];
    FirstFaultFrom(glob, rules, FreshStates(rules), points, 0);
  }

  lemma HitIsNotSilent(glob: Glob, rules: seq<Rule>, points: seq<Point>, i: nat, r: nat)
    requires IsFirstFault(glob, rules, points, i, r)
    ensures !SilentAt(glob, rules, points, i)
  {
  }

  /** The description determines the fault. */
  lemma FirstFaultUnique(glob: Glob, rules: seq<Rule>, points: seq<Point>, i: nat, r: nat, j: nat, q: nat)
    requires IsFirstFault(glob, rules, points, i, r) && IsFirstFault(glob, rules, points, j, q)
    ensures i == j && r == q
  {
    HitIsNotSilent(glob, rules, points, i, r);
    HitIsNotSilent(glob, rules, points, j, q);
  }
}
