/** Flatten, deduplicate and collapse AND/OR trees before compilation (pkg/ir/optimize.go). */
module Optimizer {
  import opened Ir
  import opened Printer

  // ---- specification ---------------------------------------------------------------------------

  /** What one optimised operand contributes to its parent: itself, or its own operands. */
  function Spliced(op: string, a: Node): seq<Node> {
    if a.Logic? && a.op == op then a.args else [a]
  }

  function Optimize(n: Node): Node
    decreases n, 1
  {
    match n
    case Not(a) => Not(Optimize(a))
    case Logic(op, args) => Collapse(op, Dedup(Flatten(op, args), {}))
    case _ => n
  }

  function Flatten(op: string, args: seq<Node>): seq<Node>
    decreases args, 0
  {
    if args == [] then [] else Spliced(op, Optimize(args[0])) + Flatten(op, args[1..])
  }

  /** Keeps the first node of each printed text not yet seen. */
  function Dedup(ns: seq<Node>, seen: set<string>): seq<Node> {
    if ns == [] then []
    else if Sql(ns[0]) in seen then Dedup(ns[1..], seen)
    else [ns[0]] + Dedup(ns[1..], seen + {Sql(ns[0])})
  }

  function Collapse(op: string, ns: seq<Node>): Node {
    if |ns| == 1 then ns[0] else Logic(op, ns)
  }

  // ---- the optimiser as written ------------------------------------------------------------------

  method OptimizeNode(n: Node) returns (r: Node)
    ensures r == Optimize(n)
    decreases n, 1
  {
    hide Flatten, Dedup;
    if n.Not? {
      var a := OptimizeNode(n.arg);
      return Not(a);
    }
    if !n.Logic? { return n; }
    var flat := FlattenArgs(n);
    var uniq := KeepFirst(flat);
    if |uniq| == 1 { return uniq[0]; }
    return Logic(n.op, uniq);
  }

  method FlattenArgs(n: Node) returns (flat: seq<Node>)
    requires n.Logic?
    ensures flat == Flatten(n.op, n.args)
    decreases n, 0
  {
    hide Optimize;
    flat := [];
    for i := 0 to |n.args|
      invariant Flatten(n.op, n.args) == flat + Flatten(n.op, n.args[i..])
    {
      assert n.args[i..][0] == n.args[i] && n.args[i..][1..] == n.args[i + 1..];
      var oa := OptimizeNode(n.args[i]);
      ghost var rest := Flatten(n.op, n.args[i + 1..]);
      assert flat + (Spliced(n.op, oa) + rest) == flat + Spliced(n.op, oa) + rest;
      if oa.Logic? && oa.op == n.op {
        flat := flat + oa.args;
      } else {
        flat := flat + [oa];
      }
    }
  }

  method KeepFirst(flat: seq<Node>) returns (uniq: seq<Node>)
    ensures uniq == Dedup(flat, {})
  {
    hide Sql;
    var seen: set<string> := {};
    uniq := [];
    for i := 0 to |flat|
      invariant Dedup(flat, {}) == uniq + Dedup(flat[i..], seen)
    {
      assert flat[i..][0] == flat[i] && flat[i..][1..] == flat[i + 1..];
      var key := EmitSql(flat[i]);
      if key in seen { continue; }
      ghost var rest := Dedup(flat[i + 1..], seen + {key});
      assert uniq + ([flat[i]] + rest) == uniq + [flat[i]] + rest;
      seen := seen + {key};
      uniq := uniq + [flat[i]];
    }
  }

  // ---- normal form, for every tree ------------------------------------------------------------------

  predicate DistinctKeys(ns: seq<Node>) {
    forall i, j :: 0 <= i < j < |ns| ==> Sql(ns[i]) != Sql(ns[j])
  }

  /** No one-operand AND/OR, no operand with its parent's operator, no repeated sibling text. */
  predicate Normal(n: Node) {
    match n
    case Not(a) => Normal(a)
    case Logic(op, args) =>
      && |args| != 1
      && DistinctKeys(args)
      && (forall a :: a in args ==> Normal(a) && !(a.Logic? && a.op == op))
    case _ => true
  }

  lemma {:induction false} DedupFrom(ns: seq<Node>, seen: set<string>)
    ensures forall a :: a in Dedup(ns, seen) ==> a in ns && Sql(a) !in seen
  {
    hide Sql;
    if ns != [] {
      assert ns == [ns[0]] + ns[1..];
      DedupFrom(ns[1..], if Sql(ns[0]) in seen then seen else seen + {Sql(ns[0])});
    }
  }

  lemma {:induction false} DedupDistinctKeys(ns: seq<Node>, seen: set<string>)
    ensures DistinctKeys(Dedup(ns, seen))
  {
    hide Sql;
    if ns != [] {
      var key := Sql(ns[0]);
      if key in seen {
        DedupDistinctKeys(ns[1..], seen);
      } else {
        DedupDistinctKeys(ns[1..], seen + {key});
        DedupFrom(ns[1..], seen + {key});
      }
    }
  }

  /** Every text is still represented. */
  lemma {:induction false} DedupCovers(ns: seq<Node>, seen: set<string>, a: Node) returns (b: Node)
    requires a in ns && Sql(a) !in seen
    ensures b in Dedup(ns, seen) && Sql(b) == Sql(a)
  {
    hide Sql;
    var key := Sql(ns[0]);
    if key == Sql(a) {
      b := ns[0];
    } else {
      assert ns == [ns[0]] + ns[1..];
      b := DedupCovers(ns[1..], if key in seen then seen else seen + {key}, a);
    }
  }

  lemma {:induction false} OptimizeNormal(n: Node)
    ensures Normal(Optimize(n))
    decreases n, 1
  {
    match n
    case Not(a) => OptimizeNormal(a);
    case Logic(op, args) =>
      var flat := Flatten(op, args);
      FlattenNormal(op, args);
      DedupFrom(flat, {});
      DedupDistinctKeys(flat, {});
    case _ =>
  }

  lemma {:induction false} FlattenNormal(op: string, args: seq<Node>)
    ensures forall a :: a in Flatten(op, args) ==> Normal(a) && !(a.Logic? && a.op == op)
    decreases args, 0
  {
    if args != [] {
      OptimizeNormal(args[0]);
      FlattenNormal(op, args[1..]);
    }
  }

  lemma {:induction false} DedupDistinct(ns: seq<Node>, seen: set<string>)
    requires DistinctKeys(ns) && forall a :: a in ns ==> Sql(a) !in seen
    ensures Dedup(ns, seen) == ns
  {
    hide Sql;
    if ns != [] {
      forall a | a in ns[1..] ensures Sql(a) !in seen + {Sql(ns[0])} {
        var i :| 0 <= i < |ns[1..]| && ns[1..][i] == a;
        assert ns[i + 1] == a;
      }
      DedupDistinct(ns[1..], seen + {Sql(ns[0])});
    }
  }

  /** A normal tree is left as it is. */
  lemma {:induction false} NormalFixed(n: Node)
    requires Normal(n)
    ensures Optimize(n) == n
    decreases n, 1
  {
    match n
    case Not(a) => NormalFixed(a);
    case Logic(op, args) =>
      FlattenFixed(op, args);
      DedupDistinct(args, {});
    case _ =>
  }

  lemma {:induction false} FlattenFixed(op: string, args: seq<Node>)
    requires forall a :: a in args ==> Normal(a) && !(a.Logic? && a.op == op)
    ensures Flatten(op, args) == args
    decreases args, 0
  {
    if args != [] {
      NormalFixed(args[0]);
      FlattenFixed(op, args[1..]);
      assert [args[0]] + args[1..] == args;
    }
  }

  /** Optimising twice is optimising once, and the fixed points are exactly the normal trees. */
  lemma OptimizeIdempotent(n: Node)
    ensures Optimize(Optimize(n)) == Optimize(n)
    ensures Optimize(n) == n <==> Normal(n)
  {
    OptimizeNormal(n);
    NormalFixed(Optimize(n));
    if Normal(n) { NormalFixed(n); }
  }
}
