/**
  Names drawn by mutate.go's `nextMutationName`, and the bookkeeping that makes them fresh:
  the sequence number only grows, and no node in the tree carries a number not yet used.
 */
module MutationNames {
  import opened Sets
  import opened Strings
  import opened Paths
  import opened Operations
  import opened VirtualTree

  /** fmt.Sprintf("mut_%04d_%02x", number, draw) */
  function GeneratedName(number: nat, draw: nat): string
    requires draw < 256
  {
    "mut_" + ZeroPad(Decimal(number), 4) + "_" + [HexChar((draw / 16) as bv64), HexChar((draw % 16) as bv64)]
  }

  lemma GeneratedNameValid(number: nat, draw: nat)
    requires draw < 256
    ensures ValidName(GeneratedName(number, draw))
  {
    var digits := ZeroPad(Decimal(number), 4);
    var high, low := (draw / 16) as bv64, (draw % 16) as bv64;
    HexCharPlain(high);
    HexCharPlain(low);
    hide HexChar, ZeroPad, Decimal;
    var name := "mut_" + digits + "_" + [HexChar(high), HexChar(low)];
    assert name == GeneratedName(number, draw) && name[0] == 'm';
    forall c | c in name ensures c != '/' && c != NUL {
      if c in digits { assert IsDigit(c); }
    }
  }

  /** Different sequence numbers give different names, whatever is drawn. */
  lemma GeneratedNameInjective(m: nat, n: nat, d: nat, e: nat)
    requires d < 256 && e < 256 && GeneratedName(m, d) == GeneratedName(n, e)
    ensures m == n
  {
    hide ZeroPad, Decimal, HexChar;
    var a, b := GeneratedName(m, d), GeneratedName(n, e);
    assert ZeroPad(Decimal(m), 4) == a[4..|a| - 3];
    assert ZeroPad(Decimal(n), 4) == b[4..|b| - 3];
    PaddedDecimalInjective(m, n, 4);
  }

  /** The name could be the one drawn for `number`. */
  ghost predicate Carries(name: string, number: nat) {
    exists draw: nat :: draw < 256 && name == GeneratedName(number, draw)
  }

  /** Some node is named for `number`. */
  ghost predicate Taken(nodes: Nodes, number: nat) {
    exists p :: p in nodes && p != [] && Carries(Last(p), number)
  }

  /** No node carries a generated name with a number at or above `bound`. */
  ghost predicate UnusedFrom(nodes: Nodes, bound: nat) {
    forall number: nat :: number >= bound ==> !Taken(nodes, number)
  }

  lemma UnusedFromAfter(nodes: Nodes, next: Nodes, bound: nat, later: nat, added: Path)
    requires UnusedFrom(nodes, bound) && bound <= later
    requires forall p :: p in next && p != [] && p != added ==> exists q :: q in nodes && q != [] && Last(q) == Last(p)
    requires added != [] ==> forall number: nat :: number >= later ==> !Carries(Last(added), number)
    ensures UnusedFrom(next, later)
  {
    forall number: nat, p | number >= later && p in next && p != []
      ensures !Carries(Last(p), number)
    {
      if p != added {
        var q :| q in nodes && q != [] && Last(q) == Last(p);
        assert !Taken(nodes, number);
      }
    }
  }

  /** The path at which an operation introduces a name, if it does. */
  function Introduced(op: NormalOperation): Path {
    match op
    case CreateFile(p, _, _) => p
    case CreateDir(p, _) => p
    case CreateSymlink(p, _) => p
    case CreateHardlink(p, _) => p
    case Rename(_, d) => d
    case _ => []
  }

  /** Steps bring in no name but the one their operation introduces. */
  lemma StepNames(nodes: Nodes, op: NormalOperation, p: Path)
    requires Tree(nodes) && Step(nodes, op).Ok?
    requires p in Step(nodes, op).value && p != [] && p != Introduced(op)
    ensures exists q :: q in nodes && q != [] && Last(q) == Last(p)
  {
    if op.Rename? {
      StepRename(nodes, op.path, op.destination);
      MoveNames(nodes, op.path, op.destination, p);
    } else {
      assert Step(nodes, op).value.Keys <= nodes.Keys + {Introduced(op)};
      assert p in nodes;
    }
  }

  lemma MoveNames(nodes: Nodes, source: Path, destination: Path, p: Path)
    requires p in MoveSubtree(nodes, source, destination) && p != [] && p != destination
    ensures exists q :: q in nodes && q != [] && Last(q) == Last(p)
  {
    if p in MovedSubtree(nodes, source, destination) {
      MovedFrom(nodes, source, destination, p);
      var suffix := p[|destination|..];
      assert p == destination + suffix && suffix != [];
      assert Last(source + suffix) == Last(p);
    } else {
      assert p in nodes;
    }
  }

  /** So sequence numbers stay unused as long as operations introduce used ones only. */
  lemma StepKeepsUnused(nodes: Nodes, op: NormalOperation, bound: nat, later: nat)
    requires Tree(nodes) && Step(nodes, op).Ok?
    requires UnusedFrom(nodes, bound) && bound <= later
    requires Introduced(op) != [] ==> exists number: nat :: number < later && Carries(Last(Introduced(op)), number)
    ensures UnusedFrom(Step(nodes, op).value, later)
  {
    var added := Introduced(op);
    if added != [] {
      var number: nat :| number < later && Carries(Last(added), number);
      CarriesOnce(Last(added), number);
    }
    forall p | p in Step(nodes, op).value && p != [] && p != added
      ensures exists q :: q in nodes && q != [] && Last(q) == Last(p)
    {
      StepNames(nodes, op, p);
    }
    UnusedFromAfter(nodes, Step(nodes, op).value, bound, later, added);
  }

  lemma CarriesOnce(name: string, number: nat)
    requires Carries(name, number)
    ensures forall other: nat :: Carries(name, other) ==> other == number
  {
    forall other: nat | Carries(name, other) ensures other == number {
      var d: nat :| d < 256 && name == GeneratedName(number, d);
      var e: nat :| e < 256 && name == GeneratedName(other, e);
      GeneratedNameInjective(number, other, d, e);
    }
  }

  /** The nodes whose own name carries a number in [low, high). */
  ghost function Bearers(nodes: Nodes, low: nat, high: nat): set<Path> {
    set p | p in nodes && p != [] && exists number: nat :: low <= number < high && Carries(Last(p), number)
  }

  /** Pigeonhole: if every number in a range is taken, that many nodes bear generated names. */
  lemma {:induction false} TakenNumbersNeedBearers(nodes: Nodes, low: nat, high: nat)
    requires low <= high && forall number: nat :: low <= number < high ==> Taken(nodes, number)
    ensures |Bearers(nodes, low, high)| >= high - low
    decreases high - low
  {
    hide Carries;
    if low < high {
      TakenNumbersNeedBearers(nodes, low, high - 1);
      assert Taken(nodes, high - 1);
      var p :| p in nodes && p != [] && Carries(Last(p), high - 1);
      CarriesOnce(Last(p), high - 1);
      var fewer := Bearers(nodes, low, high - 1);
      assert p !in fewer;
      assert fewer + {p} <= Bearers(nodes, low, high);
      SubsetSize(fewer + {p}, Bearers(nodes, low, high));
    }
  }
}
