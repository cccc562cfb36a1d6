/**
 * The optimiser keeps the meaning of every tree in which no two different operands print alike,
 * clean trees among them, and never needs more stack. Where a text with a quote in it prints like
 * another operand, it can change a rule (pkg/ir/optimize.go:15-53).
 */
module OptimizerCorrect {
  import opened Prelude
  import opened Ir
  import opened Lexer
  import opened Parser
  import opened Printer
  import opened RoundTrip
  import opened Vm
  import opened Compiler
  import opened Meaning
  import opened CompilerCorrect
  import opened Optimizer

  /** Clean, except that an AND/OR may have a single operand. */
  predicate Tidy(cc: Classes, n: Node) { Shaped(cc, n, 1) && Quiet(n) }

  // ---- optimised trees are clean ------------------------------------------------------------------

  lemma {:induction false} OptimizeClean(cc: Classes, n: Node)
    requires Tidy(cc, n)
    ensures Clean(cc, Optimize(n))
    decreases n, 1
  {
    match n
    case Not(a) => OptimizeClean(cc, a);
    case Logic(op, args) =>
      var flat := Flatten(op, args);
      FlattenClean(cc, op, args);
      DedupFrom(flat, {});
      DedupFirst(flat);
    case _ =>
  }

  lemma {:induction false} FlattenClean(cc: Classes, op: string, args: seq<Node>)
    requires forall a :: a in args ==> Tidy(cc, a)
    ensures forall a :: a in Flatten(op, args) ==> Clean(cc, a)
    ensures args != [] ==> Flatten(op, args) != []
    decreases args, 0
  {
    if args != [] {
      OptimizeClean(cc, args[0]);
      FlattenClean(cc, op, args[1..]);
    }
  }

  lemma DedupFirst(ns: seq<Node>)
    ensures ns != [] ==> Dedup(ns, {}) != [] && Dedup(ns, {})[0] == ns[0]
  {
  }

  /** Two different nodes with one printed text. */
  predicate Clash(ns: seq<Node>) {
    exists i, j :: 0 <= i < j < |ns| && ns[i] != ns[j] && Sql(ns[i]) == Sql(ns[j])
  }

  /** Deduplication drops only true duplicates exactly when no two different nodes print alike. */
  lemma DedupKeepsIff(ns: seq<Node>)
    ensures (forall a :: a in ns <==> a in Dedup(ns, {})) <==> !Clash(ns)
  {
    hide Sql, Dedup;
    var d := Dedup(ns, {});
    DedupFrom(ns, {});
    if !Clash(ns) {
      forall a | a in ns ensures a in d {
        var b := DedupCovers(ns, {}, a);
        var i :| 0 <= i < |ns| && ns[i] == a;
        var j :| 0 <= j < |ns| && ns[j] == b;
        assert a == b;
      }
    } else if forall a :: a in ns <==> a in d {
      var i, j :| 0 <= i < j < |ns| && ns[i] != ns[j] && Sql(ns[i]) == Sql(ns[j]);
      DedupDistinctKeys(ns, {});
      assert false;
    }
  }

  /** At no AND/OR of the tree do two different flattened operands print alike. */
  predicate NoClash(n: Node) {
    match n
    case Not(a) => NoClash(a)
    case Logic(op, args) => !Clash(Flatten(op, args)) && forall a :: a in args ==> NoClash(a)
    case _ => true
  }

  /** Clean trees have no clash: their printed text identifies them. */
  lemma {:induction false} TidyNoClash(cc: Classes, n: Node)
    requires cc.Sane() && Tidy(cc, n)
    ensures NoClash(n)
  {
    match n
    case Not(a) => TidyNoClash(cc, a);
    case Logic(op, args) =>
      forall a | a in args ensures NoClash(a) { TidyNoClash(cc, a); }
      FlattenClean(cc, op, args);
      CleanNoClash(cc, Flatten(op, args));
    case _ =>
  }

  lemma CleanNoClash(cc: Classes, ns: seq<Node>)
    requires cc.Sane() && forall a :: a in ns ==> Clean(cc, a)
    ensures !Clash(ns)
  {
    hide Clean, Sql;
    forall i, j | 0 <= i < j < |ns| ensures Sql(ns[i]) == Sql(ns[j]) ==> ns[i] == ns[j] {
      PrintedIsKey(cc, ns[i], ns[j]);
    }
  }

  // ---- meaning ----------------------------------------------------------------------------------------

  /** Without a clash the value on every row is kept, and so is compilability unless an AND/OR is empty. */
  lemma {:induction false} OptimizeSound(fl: Floats, n: Node, row: Row)
    requires NoClash(n)
    ensures Holds(fl, Optimize(n), row) == Holds(fl, n, row)
    ensures NoEmpty(n) ==> Compilable(fl, Optimize(n)) == Compilable(fl, n)
    decreases n, 1
  {
    match n
    case Not(a) => OptimizeSound(fl, a, row);
    case Logic(op, args) =>
      var flat := Flatten(op, args);
      FlattenSound(fl, op, args, row);
      DedupKeepsIff(flat);
      DedupFirst(flat);
      CollapseSound(fl, op, flat, Dedup(flat, {}), row);
      SameFold(fl, op, args, row);
    case _ =>
  }

  lemma SameFold(fl: Floats, op: string, args: seq<Node>, row: Row)
    ensures Holds(fl, Logic(op, args), row) == Fold(fl, op == "OR", args, row)
  {
  }

  lemma CollapseSound(fl: Floats, op: string, ns: seq<Node>, u: seq<Node>, row: Row)
    requires forall a :: a in ns <==> a in u
    ensures Holds(fl, Collapse(op, u), row) == Fold(fl, op == "OR", ns, row)
    ensures ns != [] ==> Compilable(fl, Collapse(op, u)) == AllCompilable(fl, ns)
  {
    SameFold(fl, op, u, row);
    if ns != [] { assert ns[0] in u; }
    if |u| == 1 {
      assert u[0] in u && u[0] in ns;
      assert forall a :: a in ns ==> a == u[0];
    }
  }

  lemma FoldConcat(fl: Floats, any: bool, a: seq<Node>, b: seq<Node>, row: Row)
    ensures Fold(fl, any, a + b, row) == Combine(any, Fold(fl, any, a, row), Fold(fl, any, b, row))
  {
    hide Holds;
    if any && Fold(fl, any, a, row) {
      var x :| x in a && Holds(fl, x, row);
      assert x in a + b;
    }
    if any && Fold(fl, any, b, row) {
      var x :| x in b && Holds(fl, x, row);
      assert x in a + b;
    }
  }

  lemma SpliceSound(fl: Floats, op: string, a: Node, row: Row)
    requires Holds(fl, a, row) == Fold(fl, op == "OR", [a], row)
    ensures Fold(fl, op == "OR", Spliced(op, a), row) == Holds(fl, a, row)
  {
    if a.Logic? && a.op == op { SameFold(fl, op, a.args, row); }
  }

  predicate AllCompilable(fl: Floats, ns: seq<Node>) { forall a :: a in ns ==> Compilable(fl, a) }

  lemma AllConcat(fl: Floats, a: seq<Node>, b: seq<Node>)
    ensures AllCompilable(fl, a + b) == (AllCompilable(fl, a) && AllCompilable(fl, b))
  {
    hide Compilable;
    assert forall x :: x in a + b <==> x in a || x in b;
  }

  lemma AllOne(fl: Floats, a: Node)
    ensures AllCompilable(fl, [a]) == Compilable(fl, a)
  {
    hide Compilable;
    assert a in [a];
  }

  lemma SpliceCompilable(fl: Floats, op: string, a: Node)
    requires NoEmpty(a)
    ensures Spliced(op, a) != [] && AllCompilable(fl, Spliced(op, a)) == Compilable(fl, a)
  {
    if !(a.Logic? && a.op == op) { AllOne(fl, a); }
  }

  lemma FoldOne(fl: Floats, any: bool, a: Node, row: Row)
    ensures Fold(fl, any, [a], row) == Holds(fl, a, row)
  {
    hide Holds;
    assert a in [a];
  }

  lemma {:induction false} FlattenSound(fl: Floats, op: string, args: seq<Node>, row: Row)
    requires forall a :: a in args ==> NoClash(a)
    ensures Fold(fl, op == "OR", Flatten(op, args), row) == Fold(fl, op == "OR", args, row)
    ensures (forall a :: a in args ==> NoEmpty(a)) ==>
              && AllCompilable(fl, Flatten(op, args)) == AllCompilable(fl, args)
              && (args != [] ==> Flatten(op, args) != [])
    decreases args, 0
  {
    hide Holds, Fold, Optimize, AllCompilable, NoClash;
    if args != [] {
      var o := Optimize(args[0]);
      var head, tail := Spliced(op, o), Flatten(op, args[1..]);
      OptimizeSound(fl, args[0], row);
      FlattenSound(fl, op, args[1..], row);
      FoldConcat(fl, op == "OR", head, tail, row);
      FoldOne(fl, op == "OR", o, row);
      SpliceSound(fl, op, o, row);
      FoldCons(fl, op == "OR", args, row);
      if forall a :: a in args ==> NoEmpty(a) {
        OptimizeNeed(args[0]);
        SpliceCompilable(fl, op, o);
      }
      AllConcat(fl, head, tail);
      AllConcat(fl, [args[0]], args[1..]);
      AllOne(fl, args[0]);
      assert args == [args[0]] + args[1..];
    }
  }

  // ---- stack need --------------------------------------------------------------------------------------

  lemma {:induction false} TailBound(args: seq<Node>, m: nat)
    ensures NeedTail(args) <= m <==> forall a :: a in args ==> 1 + Need(a) <= m
  {
    if args != [] {
      assert args == [args[0]] + args[1..] && args[0] in args;
      TailBound(args[1..], m);
    }
  }

  /** A chain fits in m slots when its first operand does and the others do one slot higher. */
  predicate ChainFits(args: seq<Node>, m: nat) {
    args != [] && Need(args[0]) <= m && forall a :: a in args[1..] ==> 1 + Need(a) <= m
  }

  lemma LogicFits(op: string, args: seq<Node>, m: nat)
    requires args != []
    ensures Need(Logic(op, args)) <= m <==> ChainFits(args, m)
  {
    TailBound(args[1..], m);
  }

  lemma {:induction false} OptimizeNeed(n: Node)
    requires NoEmpty(n)
    ensures Need(Optimize(n)) <= Need(n) && NoEmpty(Optimize(n))
    decreases n, 1
  {
    match n
    case Not(a) => OptimizeNeed(a);
    case Logic(op, args) =>
      var m := Need(n);
      LogicFits(op, args, m);
      FlattenNeed(op, args, m);
      var flat := Flatten(op, args);
      var u := Dedup(flat, {});
      DedupFirst(flat);
      DedupFrom(flat, {});
      DedupTail(flat);
      if |u| > 1 { LogicFits(op, u, m); }
    case _ =>
  }

  predicate NoEmpty(n: Node) {
    match n
    case Logic(_, args) => args != [] && forall a :: a in args ==> NoEmpty(a)
    case Not(a) => NoEmpty(a)
    case _ => true
  }

  lemma DedupTail(ns: seq<Node>)
    ensures ns != [] ==> forall a :: a in Dedup(ns, {})[1..] ==> a in ns[1..]
  {
    if ns != [] { DedupFrom(ns[1..], {} + {Sql(ns[0])}); }
  }

  /** The operands of a spliced node fit where the node itself did. */
  lemma SpliceFits(op: string, a: Node, m: nat)
    requires NoEmpty(a) && Need(a) <= m
    ensures ChainFits(Spliced(op, a), m)
    ensures forall b :: b in Spliced(op, a) ==> NoEmpty(b) && Need(b) <= m
  {
    hide Need;
    if a.Logic? && a.op == op {
      LogicFits(op, a.args, m);
      assert a.args == [a.args[0]] + a.args[1..];
    }
  }

  lemma {:induction false} FlattenNeed(op: string, args: seq<Node>, m: nat)
    requires ChainFits(args, m) && forall a :: a in args ==> NoEmpty(a)
    ensures ChainFits(Flatten(op, args), m)
    ensures forall a :: a in Flatten(op, args) ==> NoEmpty(a)
    decreases args, 1
  {
    hide Need;
    var o := Optimize(args[0]);
    OptimizeNeed(args[0]);
    SpliceFits(op, o, m);
    FlattenTail(op, args[1..], m);
    var head, tail := Spliced(op, o), Flatten(op, args[1..]);
    assert (head + tail)[1..] == head[1..] + tail;
  }

  lemma {:induction false} FlattenTail(op: string, args: seq<Node>, m: nat)
    requires forall a :: a in args ==> NoEmpty(a) && 1 + Need(a) <= m
    ensures forall a :: a in Flatten(op, args) ==> NoEmpty(a) && 1 + Need(a) <= m
    decreases args, 0
  {
    hide Need;
    if args != [] {
      OptimizeNeed(args[0]);
      SpliceFits(op, Optimize(args[0]), m - 1);
      FlattenTail(op, args[1..], m);
    }
  }

  lemma {:induction false} TidyNoEmpty(cc: Classes, n: Node)
    requires Shaped(cc, n, 1)
    ensures NoEmpty(n)
  {
    match n
    case Logic(_, args) => forall a | a in args ensures NoEmpty(a) { TidyNoEmpty(cc, a); }
    case Not(a) => TidyNoEmpty(cc, a);
    case _ =>
  }

  // ---- the theorem ----------------------------------------------------------------------------------------

  /** Compiling the optimised tree gives the program's answer for the original, within the same stack. */
  lemma OptimizeThenCompile(fl: Floats, n: Node, row: Row)
    requires NoClash(n) && NoEmpty(n)
    ensures Compile(fl, Optimize(n)).Some? <==> Compile(fl, n).Some?
    ensures Compile(fl, n).Some? ==>
              var p, q := Compile(fl, n).value, Compile(fl, Optimize(n)).value;
              && Indexed(p.pools, p.code) && Indexed(q.pools, q.code)
              && Eval(fl, q, row) == (Need(Optimize(n)) <= STACK_MAX && Holds(fl, n, row))
              && (Need(n) <= STACK_MAX ==> Eval(fl, q, row) == Eval(fl, p, row))
  {
    hide Compile, Eval, Holds;
    CompileCorrect(fl, n, row);
    CompileCorrect(fl, Optimize(n), row);
    OptimizeSound(fl, n, row);
    OptimizeNeed(n);
  }

  // ---- with a clash ---------------------------------------------------------------------------------------

  const SLY := "x' OR B = 'y"
  const COLLISION_TEXT := "A = " + "\"" + SLY + "\"" + " AND " + "(A = 'x' OR B = 'y')"
  const PLAIN_OR := Logic("OR", [Node.Compare("A", "=", Str("x")), Node.Compare("B", "=", Str("y"))])
  const SLY_TEST := Node.Compare("A", "=", Str(SLY))
  const COLLISION := Logic("AND", [SLY_TEST, PLAIN_OR])

  lemma PlainOrText()
    ensures Sql(PLAIN_OR) == "A = 'x' OR B = 'y'"
  {
    var a, b := Node.Compare("A", "=", Str("x")), Node.Compare("B", "=", Str("y"));
    assert Sql(a) == "A = 'x'" && Sql(b) == "B = 'y'";
    hide SqlVal;
    assert SqlParts([b]) == [WrapSql(b)] + SqlParts([]);
    assert SqlParts([a, b]) == [WrapSql(a)] + SqlParts([b]) == [Sql(a)] + [Sql(b)];
    JoinCons(Sql(a), [Sql(b)], " " + "OR" + " ");
  }

  lemma SameText()
    ensures Sql(SLY_TEST) == Sql(PLAIN_OR) == "A = 'x' OR B = 'y'"
  {
    PlainOrText();
    assert Sql(SLY_TEST) == "A = '" + SLY + "'";
  }

  lemma CollisionShaped(cc: Classes)
    requires cc.Sane()
    ensures IsName(cc, "A") && Shaped(cc, COLLISION, 2) && Tidy(cc, PLAIN_OR)
  {
    assert Upper("A") == "A" && Upper("B") == "B";
    assert IsName(cc, "A") && IsName(cc, "B");
  }

  lemma CollisionParses(cc: Classes)
    requires cc.Sane()
    ensures Parse(cc, COLLISION_TEXT) == Some(COLLISION)
  {
    hide Lex, PLevel, Tokens, Shaped, Quiet, IsName, COLLISION_TEXT;
    CollisionShaped(cc);
    CollisionLexes(cc);
    var t := Tokens(COLLISION);
    var ts := t + [EOF];
    assert ts[0..0 + |t|] == t;
    ParseTokens(cc, COLLISION, ts, 0);
  }

  lemma CollisionLexes(cc: Classes)
    requires cc.Sane()
    ensures Lex(cc, COLLISION_TEXT) == Some(Tokens(COLLISION) + [EOF])
  {
    hide Lex, WordToken, Tokens, WrapTokens, Sql, Shaped, IsName, Quiet;
    CollisionShaped(cc);
    WrappedText();
    KeywordTokens();
    var s1 := WrapSql(PLAIN_OR) + "";
    var s2 := " " + "AND" + " " + s1;
    var s3 := ['"'] + (SLY + (['"'] + s2));
    var head, quoted, tail := [Ident("A"), Op("=")], [Quoted(SLY)], WrapTokens(PLAIN_OR);
    assert COLLISION_TEXT == "A" + " " + "=" + " " + s3;
    LexEnd(cc);
    LexWrapped(cc, PLAIN_OR, "");
    HeadWord(cc, "AND", s1);
    PrependTwice([KwAnd], tail, Some([EOF]));
    LexBetweenQuotes(cc, '"', SLY, s2);
    PrependTwice(quoted, [KwAnd] + tail, Some([EOF]));
    HeadCompare(cc, "A", "=", s3);
    PrependTwice(head, quoted + ([KwAnd] + tail), Some([EOF]));
    assert Tokens(COLLISION) == head + (quoted + ([KwAnd] + tail)) by { CollisionTokens(); }
  }

  lemma WrappedText()
    ensures WrapSql(PLAIN_OR) == "(A = 'x' OR B = 'y')"
  {
    PlainOrText();
  }

  lemma CollisionTokens()
    ensures Tokens(COLLISION) == [Ident("A"), Op("=")] + ([Quoted(SLY)] + ([KwAnd] + WrapTokens(PLAIN_OR)))
  {
    JoinHead(KwAnd, [SLY_TEST, PLAIN_OR]);
    JoinHead(KwAnd, [PLAIN_OR]);
    assert [SLY_TEST, PLAIN_OR][1..] == [PLAIN_OR];
    assert WrapTokens(SLY_TEST) == [Ident("A"), Op("="), Quoted(SLY)];
  }

  /** A rule that parses, whose two operands print alike: optimising it drops one and changes the answer. */
  lemma OptimizeCanChangeMeaning(cc: Classes, fl: Floats)
    requires cc.Sane()
    ensures Parse(cc, COLLISION_TEXT) == Some(COLLISION) && !NoClash(COLLISION)
    ensures var row := map["A" := Text(SLY)];
            Holds(fl, Optimize(COLLISION), row) && !Holds(fl, COLLISION, row)
  {
    hide Parse, Optimize;
    CollisionParses(cc);
    CollisionOptimized();
    CollisionRow(fl);
    assert SLY_TEST in COLLISION.args && PLAIN_OR in COLLISION.args;
    if NoClash(COLLISION) { OptimizeSound(fl, COLLISION, map["A" := Text(SLY)]); }
  }

  lemma CollisionRow(fl: Floats)
    ensures var row := map["A" := Text(SLY)]; Holds(fl, SLY_TEST, row) && !Holds(fl, PLAIN_OR, row)
  {
    var row := map["A" := Text(SLY)];
    var a, b := Node.Compare("A", "=", Str("x")), Node.Compare("B", "=", Str("y"));
    assert |SLY| != 1;
    assert !Holds(fl, a, row) && !Holds(fl, b, row);
    assert PLAIN_OR.args == [a, b];
  }

  lemma CollisionOptimized()
    ensures Optimize(COLLISION) == SLY_TEST
  {
    SameText();
    var a, b := Node.Compare("A", "=", Str("x")), Node.Compare("B", "=", Str("y"));
    assert Sql(a) == "A = 'x'" && Sql(b) == "B = 'y'";
    assert Normal(PLAIN_OR) by {
      assert Sql(a)[0] != Sql(b)[0];
      assert DistinctKeys([a, b]);
    }
    NormalFixed(PLAIN_OR);
    assert Flatten("AND", [PLAIN_OR]) == [PLAIN_OR] + Flatten("AND", []);
    assert Flatten("AND", [SLY_TEST, PLAIN_OR]) == [SLY_TEST] + Flatten("AND", [PLAIN_OR]);
    assert Flatten("AND", [SLY_TEST, PLAIN_OR]) == [SLY_TEST, PLAIN_OR];
    assert Dedup([SLY_TEST, PLAIN_OR], {}) == [SLY_TEST] + Dedup([PLAIN_OR], {} + {Sql(SLY_TEST)});
    assert Dedup([PLAIN_OR], {} + {Sql(SLY_TEST)}) == Dedup([], {} + {Sql(SLY_TEST)});
  }
}
