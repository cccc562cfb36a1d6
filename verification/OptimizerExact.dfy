/**
 * The optimiser next to one that deduplicates by tree equality, as its comment says it does
 * (pkg/ir/optimize.go:36): on which trees the two are the same function.
 */
module OptimizerExact {
  import opened Ir
  import opened Printer
  import opened Optimizer
  import opened OptimizerCorrect

  /** Keeps the first occurrence of each node not yet seen. */
  function KeepNew(ns: seq<Node>, seen: set<Node>): seq<Node> {
    if ns == [] then []
    else if ns[0] in seen then KeepNew(ns[1..], seen)
    else [ns[0]] + KeepNew(ns[1..], seen + {ns[0]})
  }

  function OptimizeExact(n: Node): Node
    decreases n, 1
  {
    match n
    case Not(a) => Not(OptimizeExact(a))
    case Logic(op, args) => Collapse(op, KeepNew(FlattenExact(op, args), {}))
    case _ => n
  }

  function FlattenExact(op: string, args: seq<Node>): seq<Node>
    decreases args, 0
  {
    if args == [] then [] else Spliced(op, OptimizeExact(args[0])) + FlattenExact(op, args[1..])
  }

  // ---- deduplication by equality ------------------------------------------------------------------------

  predicate DistinctNodes(ns: seq<Node>) { forall i, j :: 0 <= i < j < |ns| ==> ns[i] != ns[j] }

  lemma {:induction false} KeepNewHas(ns: seq<Node>, seen: set<Node>)
    ensures forall a :: a in KeepNew(ns, seen) <==> a in ns && a !in seen
    ensures DistinctNodes(KeepNew(ns, seen))
  {
    if ns != [] {
      assert ns == [ns[0]] + ns[1..];
      KeepNewHas(ns[1..], if ns[0] in seen then seen else seen + {ns[0]});
    }
  }

  /** Equal texts mean equal nodes. */
  predicate TextsTell(ns: seq<Node>) { forall a, b :: a in ns && b in ns && Sql(a) == Sql(b) ==> a == b }

  /** Without a clash, keys and nodes are dropped alike. */
  lemma {:induction false} SameDedup(ns: seq<Node>, seen: set<Node>, keys: set<string>)
    requires TextsTell(ns)
    requires forall a :: a in ns ==> (a in seen <==> Sql(a) in keys)
    ensures KeepNew(ns, seen) == Dedup(ns, keys)
  {
    hide Sql;
    if ns != [] {
      assert ns == [ns[0]] + ns[1..];
      if ns[0] in seen { SameDedup(ns[1..], seen, keys); }
      else { SameDedup(ns[1..], seen + {ns[0]}, keys + {Sql(ns[0])}); }
    }
  }

  lemma NoClashKeys(ns: seq<Node>)
    ensures !Clash(ns) <==> TextsTell(ns)
  {
    if Clash(ns) {
      var i, j :| 0 <= i < j < |ns| && ns[i] != ns[j] && Sql(ns[i]) == Sql(ns[j]);
      assert ns[i] in ns && ns[j] in ns;
    } else {
      forall a, b | a in ns && b in ns && Sql(a) == Sql(b) ensures a == b {
        var i :| 0 <= i < |ns| && ns[i] == a;
        var j :| 0 <= j < |ns| && ns[j] == b;
      }
    }
  }

  // ---- the two optimisers agree where nothing clashes -----------------------------------------------------

  lemma {:induction false} SameWithoutClash(n: Node)
    requires NoClash(n)
    ensures OptimizeExact(n) == Optimize(n)
    decreases n, 1
  {
    match n
    case Not(a) => SameWithoutClash(a);
    case Logic(op, args) =>
      SameFlatten(op, args);
      NoClashKeys(Flatten(op, args));
      SameDedup(Flatten(op, args), {}, {});
    case _ =>
  }

  lemma {:induction false} SameFlatten(op: string, args: seq<Node>)
    requires forall a :: a in args ==> NoClash(a)
    ensures FlattenExact(op, args) == Flatten(op, args)
    decreases args, 0
  {
    if args != [] {
      SameWithoutClash(args[0]);
      SameFlatten(op, args[1..]);
    }
  }

  // ---- and nowhere else -----------------------------------------------------------------------------------

  /** Normal, with repeated siblings told apart as trees. */
  predicate NormalExact(n: Node) {
    match n
    case Not(a) => NormalExact(a)
    case Logic(op, args) =>
      && |args| != 1
      && DistinctNodes(args)
      && (forall a :: a in args ==> NormalExact(a) && !(a.Logic? && a.op == op))
    case _ => true
  }

  lemma {:induction false} ExactIsNormal(n: Node)
    ensures NormalExact(OptimizeExact(n))
    decreases n, 1
  {
    match n
    case Not(a) => ExactIsNormal(a);
    case Logic(op, args) =>
      FlattenExactNormal(op, args);
      KeepNewHas(FlattenExact(op, args), {});
    case _ =>
  }

  lemma {:induction false} FlattenExactNormal(op: string, args: seq<Node>)
    ensures forall a :: a in FlattenExact(op, args) ==> NormalExact(a) && !(a.Logic? && a.op == op)
    decreases args, 0
  {
    if args != [] {
      ExactIsNormal(args[0]);
      FlattenExactNormal(op, args[1..]);
    }
  }

  lemma {:induction false} FlattenHas(op: string, args: seq<Node>, a: Node, x: Node)
    requires a in args && x in Spliced(op, OptimizeExact(a))
    ensures x in FlattenExact(op, args)
  {
    hide OptimizeExact, Spliced;
    if a != args[0] {
      assert args == [args[0]] + args[1..];
      FlattenHas(op, args[1..], a, x);
    }
  }

  /** Nodes of a list with distinct keys have one key each. */
  lemma KeyOfOne(d: seq<Node>, a: Node, b: Node)
    requires DistinctKeys(d) && a in d && b in d && Sql(a) == Sql(b)
    ensures a == b
  {
    hide Sql;
    var i :| 0 <= i < |d| && d[i] == a;
    var j :| 0 <= j < |d| && d[j] == b;
  }

  /** An operand whose parts all survive next to each other is itself normal. */
  lemma OperandNormal(op: string, a: Node, d: seq<Node>)
    requires DistinctKeys(d) && (forall x :: x in d ==> Normal(x))
    requires NormalExact(a) && forall x :: x in Spliced(op, a) ==> x in d
    ensures Normal(a)
  {
    hide Sql;
    if a.Logic? && a.op == op {
      var xs := a.args;
      forall i, j | 0 <= i < j < |xs| ensures Sql(xs[i]) != Sql(xs[j]) {
        if Sql(xs[i]) == Sql(xs[j]) { KeyOfOne(d, xs[i], xs[j]); }
      }
      assert DistinctKeys(xs);
    } else {
      assert a in Spliced(op, a);
    }
  }

  lemma {:induction false} NormalMeansNoClash(n: Node)
    requires Normal(OptimizeExact(n))
    ensures NoClash(n)
  {
    match n
    case Not(a) => NormalMeansNoClash(a);
    case Logic(op, args) =>
      var e := FlattenExact(op, args);
      var d := KeepNew(e, {});
      KeepNewHas(e, {});
      KeptNormal(op, d);
      forall a | a in args ensures NoClash(a) {
        ExactIsNormal(a);
        forall x | x in Spliced(op, OptimizeExact(a)) ensures x in d { FlattenHas(op, args, a, x); }
        OperandNormal(op, OptimizeExact(a), d);
        NormalMeansNoClash(a);
      }
      SameFlatten(op, args);
      forall a, b | a in e && b in e && Sql(a) == Sql(b) ensures a == b { KeyOfOne(d, a, b); }
      NoClashKeys(e);
    case _ =>
  }

  lemma KeptNormal(op: string, d: seq<Node>)
    requires Normal(Collapse(op, d))
    ensures DistinctKeys(d) && forall x :: x in d ==> Normal(x)
  {
  }

  /** Deduplicating by printed text is deduplicating by equality exactly on the trees without a clash. */
  lemma OptimizeExactIff(n: Node)
    ensures Optimize(n) == OptimizeExact(n) <==> NoClash(n)
  {
    if NoClash(n) { SameWithoutClash(n); }
    if Optimize(n) == OptimizeExact(n) {
      OptimizeNormal(n);
      NormalMeansNoClash(n);
    }
  }
}
