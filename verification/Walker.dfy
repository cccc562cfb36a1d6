/** The tree-walking evaluator and its explaining form (pkg/runtime/ast/ast.go). */
module Walker {
  import opened Prelude
  import opened Ir
  import opened Printer
  import opened Vm
  import opened LikePatterns

  // ---- values ---------------------------------------------------------------------------------

  /** row[field]; Go yields nil for an absent key. */
  function Raw(row: Row, f: string): Cell { if f in row then row[f] else Nil }

  function ToNum(c: Cell): Option<F64> { if c.Number? then Some(c.n) else None }

  function RawString(fl: Floats, c: Cell): string {
    match c
    case Text(s) => s
    case Flag(b) => if b then "true" else "false"
    case Number(n) => fl.format(n)
    case _ => ""
  }

  /** A BETWEEN bound; unlike the compiler, a numeric string is accepted. */
  function LitNum(fl: Floats, v: Literal): Option<F64> { fl.parse(v.text) }

  predicate WalkNumRel(fl: Floats, op: string, x: F64, y: F64)
    requires op in {"=", "!=", ">", ">=", "<", "<="}
  {
    match op
    case "=" => fl.eq(x, y)
    case "!=" => !fl.eq(x, y)
    case ">" => fl.lt(y, x)
    case ">=" => fl.le(y, x)
    case "<" => fl.lt(x, y)
    case _ => fl.le(x, y)
  }

  predicate WalkStrRel(op: string, s: string, t: string) {
    match op
    case "=" => s == t
    case "!=" => s != t
    case ">" => StrLess(t, s)
    case ">=" => !StrLess(s, t)
    case "<" => StrLess(s, t)
    case "<=" => !StrLess(t, s)
    case _ => false
  }

  predicate WalkCompare(fl: Floats, raw: Cell, op: string, v: Literal) {
    if v.Num? && ToNum(raw).Some? && fl.parse(v.text).Some? && op in {"=", "!=", ">", ">=", "<", "<="}
    then WalkNumRel(fl, op, raw.n, fl.parse(v.text).value)
    else WalkStrRel(op, RawString(fl, raw), v.text)
  }

  predicate WalkBetween(fl: Floats, raw: Cell, lo: Literal, hi: Literal) {
    && ToNum(raw).Some? && LitNum(fl, lo).Some? && LitNum(fl, hi).Some?
    && fl.le(LitNum(fl, lo).value, raw.n) && fl.le(raw.n, LitNum(fl, hi).value)
  }

  predicate WalkIn(s: string, vs: seq<Literal>) { exists v :: v in vs && s == v.text }

  predicate WalkLike(s: string, pattern: string) {
    var pre, suf, core := HasPrefix(pattern, "%"), HasSuffix(pattern, "%"), Trim(pattern);
    if pre && suf then Contains(s, core)
    else if suf then HasPrefix(s, core)
    else if pre then HasSuffix(s, core)
    else s == pattern
  }

  // ---- evaluation -------------------------------------------------------------------------------

  predicate Walk(fl: Floats, n: Node, row: Row) {
    match n
    case Logic(op, args) =>
      if op == "OR" then exists i :: 0 <= i < |args| && Walk(fl, args[i], row)
      else forall i :: 0 <= i < |args| ==> Walk(fl, args[i], row)
    case Compare(f, op, v) => WalkCompare(fl, Raw(row, f), op, v)
    case Between(f, lo, hi) => WalkBetween(fl, Raw(row, f), lo, hi)
    case In(f, vs, neg) => WalkIn(RawString(fl, Raw(row, f)), vs) != neg
    case Like(f, p, neg) => WalkLike(RawString(fl, Raw(row, f)), p) != neg
    case IsNull(f, neg) => (f !in row || row[f] == Nil) != neg
    case Not(a) => !Walk(fl, a, row)
  }

  method WalkNode(fl: Floats, n: Node, row: Row) returns (ok: bool)
    ensures ok == Walk(fl, n, row)
  {
    match n
    case Logic(op, args) =>
      if op == "OR" {
        for i := 0 to |args|
          invariant forall k :: 0 <= k < i ==> !Walk(fl, args[k], row)
        {
          ok := WalkNode(fl, args[i], row);
          if ok { return true; }
        }
        return false;
      }
      for i := 0 to |args|
        invariant forall k :: 0 <= k < i ==> Walk(fl, args[k], row)
      {
        ok := WalkNode(fl, args[i], row);
        if !ok { return false; }
      }
      return true;
    case Compare(f, op, v) => ok := WalkCompare(fl, Raw(row, f), op, v);
    case Between(f, lo, hi) => ok := WalkBetween(fl, Raw(row, f), lo, hi);
    case In(f, vs, neg) =>
      var s := RawString(fl, Raw(row, f));
      var found := false;
      for i := 0 to |vs|
        invariant found <==> exists k :: 0 <= k < i && s == vs[k].text
      {
        if s == vs[i].text { found := true; }
      }
      ok := found != neg;
    case Like(f, p, neg) => ok := WalkLike(RawString(fl, Raw(row, f)), p) != neg;
    case IsNull(f, neg) => ok := (f !in row || row[f] == Nil) != neg;
    case Not(a) =>
      ok := WalkNode(fl, a, row);
      ok := !ok;
  }

  // ---- explanation --------------------------------------------------------------------------------

  /** The verdict on a tree and the printed sub-expressions held responsible for a failure. */
  datatype Verdict = Verdict(passed: bool, reasons: seq<string>)

  function Explain(fl: Floats, n: Node, row: Row): Verdict
    decreases n, 1
  {
    match n
    case Logic(op, args) =>
      if op == "OR" then
        if AnyPasses(fl, args, row) then Verdict(true, []) else Verdict(false, [Sql(n)])
      else
        var rs := Failures(fl, args, row);
        Verdict(rs == [], rs)
    case Not(a) => if !Walk(fl, a, row) then Verdict(true, []) else Verdict(false, [Sql(n)])
    case _ => if Walk(fl, n, row) then Verdict(true, []) else Verdict(false, [Sql(n)])
  }

  predicate AnyPasses(fl: Floats, args: seq<Node>, row: Row)
    decreases args, 0
  {
    args != [] && (Explain(fl, args[0], row).passed || AnyPasses(fl, args[1..], row))
  }

  function Failures(fl: Floats, args: seq<Node>, row: Row): seq<string>
    decreases args, 0
  {
    if args == [] then []
    else
      var v := Explain(fl, args[0], row);
      (if v.passed then [] else v.reasons) + Failures(fl, args[1..], row)
  }

  method ExplainNode(fl: Floats, n: Node, row: Row) returns (v: Verdict)
    ensures v == Explain(fl, n, row)
    decreases n, 1
  {
    if n.Logic? {
      if n.op == "OR" { v := ExplainOr(fl, n, row); } else { v := ExplainAnd(fl, n, row); }
      return;
    }
    if n.Not? {
      var inner := WalkNode(fl, n.arg, row);
      if !inner { return Verdict(true, []); }
      var text := EmitSql(n);
      return Verdict(false, [text]);
    }
    var ok := WalkNode(fl, n, row);
    if ok { return Verdict(true, []); }
    var text := EmitSql(n);
    v := Verdict(false, [text]);
  }

  method ExplainOr(fl: Floats, n: Node, row: Row) returns (v: Verdict)
    requires n.Logic? && n.op == "OR"
    ensures v == Explain(fl, n, row)
    decreases n, 0
  {
    hide Sql;
    for i := 0 to |n.args|
      invariant AnyPasses(fl, n.args, row) == AnyPasses(fl, n.args[i..], row)
    {
      assert n.args[i..][0] == n.args[i] && n.args[i..][1..] == n.args[i + 1..];
      var w := ExplainNode(fl, n.args[i], row);
      if w.passed { return Verdict(true, []); }
    }
    var text := EmitSql(n);
    v := Verdict(false, [text]);
  }

  method ExplainAnd(fl: Floats, n: Node, row: Row) returns (v: Verdict)
    requires n.Logic? && n.op != "OR"
    ensures v == Explain(fl, n, row)
    decreases n, 0
  {
    hide Sql;
    var rs: seq<string> := [];
    for i := 0 to |n.args|
      invariant Failures(fl, n.args, row) == rs + Failures(fl, n.args[i..], row)
    {
      assert n.args[i..][0] == n.args[i] && n.args[i..][1..] == n.args[i + 1..];
      var w := ExplainNode(fl, n.args[i], row);
      ghost var rest := Failures(fl, n.args[i + 1..], row);
      assert rs + (w.reasons + rest) == rs + w.reasons + rest && [] + rest == rest;
      if !w.passed { rs := rs + w.reasons; }
    }
    v := Verdict(|rs| == 0, rs);
  }

  // ---- explanations are sound and complete -----------------------------------------------------------

  /** m occurs in n. */
  predicate Within(m: Node, n: Node) {
    || m == n
    || (n.Logic? && exists a :: a in n.args && Within(m, a))
    || (n.Not? && Within(m, n.arg))
  }

  /** The reason r is the text of some sub-expression of n that evaluates to false on the row. */
  ghost predicate Blames(fl: Floats, r: string, n: Node, row: Row) {
    exists m :: Within(m, n) && Sql(m) == r && !Walk(fl, m, row)
  }

  lemma BlamesSelf(fl: Floats, n: Node, row: Row)
    requires !Walk(fl, n, row)
    ensures Blames(fl, Sql(n), n, row)
  {
    assert Within(n, n);
  }

  lemma BlamesUp(fl: Floats, r: string, a: Node, n: Node, row: Row)
    requires n.Logic? && a in n.args && Blames(fl, r, a, row)
    ensures Blames(fl, r, n, row)
  {
    var m :| Within(m, a) && Sql(m) == r && !Walk(fl, m, row);
    assert Within(m, n);
  }

  /** passed is the evaluator's answer, there are reasons exactly when it is false, and each is to blame. */
  lemma {:induction false} ExplainSound(fl: Floats, n: Node, row: Row)
    ensures var v := Explain(fl, n, row);
            && v.passed == Walk(fl, n, row)
            && (v.reasons == [] <==> v.passed)
            && forall r :: r in v.reasons ==> Blames(fl, r, n, row)
    decreases n, 1
  {
    hide Sql;
    var v := Explain(fl, n, row);
    if n.Logic? && n.op != "OR" {
      forall r | r in v.reasons ensures Blames(fl, r, n, row) {
        var i := FailuresSound(fl, n.args, row, r);
        BlamesUp(fl, r, n.args[i], n, row);
      }
      if v.reasons != [] {
        var i := FailuresSound(fl, n.args, row, v.reasons[0]);
      }
      if !Walk(fl, n, row) {
        var i :| 0 <= i < |n.args| && !Walk(fl, n.args[i], row);
        var r := FailuresComplete(fl, n.args, row, i);
      }
    } else {
      if n.Logic? { AnySound(fl, n.args, row); }
      if !Walk(fl, n, row) { BlamesSelf(fl, n, row); }
    }
  }

  lemma {:induction false} AnySound(fl: Floats, args: seq<Node>, row: Row)
    ensures AnyPasses(fl, args, row) == exists i :: 0 <= i < |args| && Walk(fl, args[i], row)
    decreases args, 0
  {
    hide Walk, Explain;
    if args != [] {
      ExplainSound(fl, args[0], row);
      AnySound(fl, args[1..], row);
      if AnyPasses(fl, args[1..], row) {
        var i :| 0 <= i < |args[1..]| && Walk(fl, args[1..][i], row);
        assert args[i + 1] == args[1..][i];
      }
      if exists i :: 0 <= i < |args| && Walk(fl, args[i], row) {
        var i :| 0 <= i < |args| && Walk(fl, args[i], row);
        if i > 0 { assert args[1..][i - 1] == args[i]; }
      }
    }
  }

  /** Every failing operand of an AND is blamed. */
  lemma {:induction false} FailuresComplete(fl: Floats, args: seq<Node>, row: Row, i: nat) returns (r: string)
    requires i < |args| && !Walk(fl, args[i], row)
    ensures r in Failures(fl, args, row) && Blames(fl, r, args[i], row)
    decreases args, 0
  {
    hide Walk, Explain, Blames;
    ExplainSound(fl, args[0], row);
    if i == 0 {
      r := Explain(fl, args[0], row).reasons[0];
    } else {
      r := FailuresComplete(fl, args[1..], row, i - 1);
    }
  }

  /** Nothing but a failing operand is blamed. */
  lemma {:induction false} FailuresSound(fl: Floats, args: seq<Node>, row: Row, r: string) returns (i: nat)
    requires r in Failures(fl, args, row)
    ensures i < |args| && !Walk(fl, args[i], row) && Blames(fl, r, args[i], row)
    decreases args, 0
  {
    hide Walk, Explain, Blames;
    ExplainSound(fl, args[0], row);
    if r in Failures(fl, args[1..], row) {
      i := FailuresSound(fl, args[1..], row, r);
      i := i + 1;
    } else {
      i := 0;
    }
  }

  // ---- exactly which reasons --------------------------------------------------------------------------

  /** The parts that nested ANDs join: what is left once every AND is opened. */
  function Conjuncts(n: Node): seq<Node>
    decreases n, 1
  {
    if n.Logic? && n.op != "OR" then AllConjuncts(n.args) else [n]
  }

  function AllConjuncts(args: seq<Node>): seq<Node>
    decreases args, 0
  {
    if args == [] then [] else Conjuncts(args[0]) + AllConjuncts(args[1..])
  }

  /** The reasons are the texts of the false conjuncts, all of them and in order. */
  ghost predicate Reports(fl: Floats, n: Node, row: Row, reasons: seq<string>) {
    exists ks :: Picks(ks, Conjuncts(n), c => !Walk(fl, c, row)) && TextsAt(Conjuncts(n), ks, reasons)
  }

  ghost predicate TextsAt(cs: seq<Node>, ks: seq<nat>, texts: seq<string>) {
    |texts| == |ks| && forall j :: 0 <= j < |ks| ==> ks[j] < |cs| && texts[j] == Sql(cs[ks[j]])
  }

  function FalseTexts(fl: Floats, cs: seq<Node>, row: Row): seq<string> {
    if cs == [] then []
    else (if Walk(fl, cs[0], row) then [] else [Sql(cs[0])]) + FalseTexts(fl, cs[1..], row)
  }

  lemma {:induction false} FalseTextsConcat(fl: Floats, a: seq<Node>, b: seq<Node>, row: Row)
    ensures FalseTexts(fl, a + b, row) == FalseTexts(fl, a, row) + FalseTexts(fl, b, row)
  {
    hide Walk, Sql;
    if a == [] {
      assert a + b == b;
    } else {
      assert (a + b)[1..] == a[1..] + b;
      FalseTextsConcat(fl, a[1..], b, row);
    }
  }

  lemma {:induction false} FalseTextsPicked(fl: Floats, cs: seq<Node>, row: Row) returns (ks: seq<nat>)
    ensures Picks(ks, cs, c => !Walk(fl, c, row)) && TextsAt(cs, ks, FalseTexts(fl, cs, row))
  {
    hide Walk, Sql, Picks, PickedCons;
    if cs == [] {
      ks := [];
      PicksNone(cs, c => !Walk(fl, c, row));
    } else {
      var tail := FalseTextsPicked(fl, cs[1..], row);
      var first := !Walk(fl, cs[0], row);
      PicksCons(tail, cs, c => !Walk(fl, c, row));
      ks := PickedCons(first, tail);
      PickedSize(first, tail);
      var texts := FalseTexts(fl, cs, row);
      forall j | 0 <= j < |ks| ensures ks[j] < |cs| && texts[j] == Sql(cs[ks[j]]) { PickedAt(first, tail, j); }
    }
  }

  lemma {:induction false} ReasonsAre(fl: Floats, n: Node, row: Row)
    ensures Explain(fl, n, row).reasons == FalseTexts(fl, Conjuncts(n), row)
    decreases n, 1
  {
    hide Sql;
    if n.Logic? && n.op != "OR" {
      FailuresAre(fl, n.args, row);
    } else {
      ExplainSound(fl, n, row);
      assert FalseTexts(fl, [n], row) == (if Walk(fl, n, row) then [] else [Sql(n)]) + FalseTexts(fl, [], row);
    }
  }

  lemma {:induction false} FailuresAre(fl: Floats, args: seq<Node>, row: Row)
    ensures Failures(fl, args, row) == FalseTexts(fl, AllConjuncts(args), row)
    decreases args, 0
  {
    hide Sql, Explain, Walk;
    if args != [] {
      ReasonsAre(fl, args[0], row);
      ExplainSound(fl, args[0], row);
      FailuresAre(fl, args[1..], row);
      FalseTextsConcat(fl, Conjuncts(args[0]), AllConjuncts(args[1..]), row);
    }
  }

  /** Explain answers the walk, and its reasons are exactly the false conjuncts. */
  lemma ExplainExactly(fl: Floats, n: Node, row: Row)
    ensures Explain(fl, n, row).passed == Walk(fl, n, row) && Reports(fl, n, row, Explain(fl, n, row).reasons)
  {
    hide Explain, Walk, Picks, TextsAt;
    ExplainSound(fl, n, row);
    ReasonsAre(fl, n, row);
    var ks := FalseTextsPicked(fl, Conjuncts(n), row);
  }

  /** A tree holds exactly when all its conjuncts do, and each of them is a part of it. */
  lemma {:induction false} ConjunctsMean(fl: Floats, n: Node, row: Row)
    ensures Walk(fl, n, row) <==> forall c :: c in Conjuncts(n) ==> Walk(fl, c, row)
    ensures forall c :: c in Conjuncts(n) ==> Within(c, n) && !(c.Logic? && c.op != "OR")
    decreases n, 1
  {
    hide Sql;
    if n.Logic? && n.op != "OR" {
      forall i | 0 <= i < |n.args| ensures forall c :: c in Conjuncts(n.args[i]) ==> c in Conjuncts(n) {
        OperandConjuncts(n.args, i);
      }
      forall i | 0 <= i < |n.args|
        ensures Walk(fl, n.args[i], row) <==> forall c :: c in Conjuncts(n.args[i]) ==> Walk(fl, c, row)
        ensures forall c :: c in Conjuncts(n.args[i]) ==> Within(c, n.args[i]) && !(c.Logic? && c.op != "OR") {
        ConjunctsMean(fl, n.args[i], row);
      }
      forall c | c in Conjuncts(n)
        ensures exists i :: 0 <= i < |n.args| && c in Conjuncts(n.args[i]) { var i := ConjunctOf(n.args, c); }
    } else {
      assert Conjuncts(n) == [n];
    }
  }

  lemma {:induction false} OperandConjuncts(args: seq<Node>, i: nat)
    requires i < |args|
    ensures forall c :: c in Conjuncts(args[i]) ==> c in AllConjuncts(args)
  {
    hide Conjuncts;
    if i > 0 { OperandConjuncts(args[1..], i - 1); }
  }

  lemma {:induction false} ConjunctOf(args: seq<Node>, c: Node) returns (i: nat)
    requires c in AllConjuncts(args)
    ensures i < |args| && c in Conjuncts(args[i])
  {
    hide Conjuncts;
    if c in Conjuncts(args[0]) {
      i := 0;
    } else {
      var j := ConjunctOf(args[1..], c);
      i := j + 1;
    }
  }
}
