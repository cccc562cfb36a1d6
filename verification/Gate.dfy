/** Gate evaluation: a row against every loaded rule (internal/service/rule_service.go:172-206). */
module Gate {
  import opened Prelude
  import opened Ir
  import opened Lexer
  import opened Parser
  import opened Printer
  import opened Vm
  import opened Meaning
  import opened Optimizer
  import opened OptimizerCorrect
  import opened Walker
  import opened Agreement
  import opened Cache
  import opened Engine
  import opened Pipeline

  datatype FailedRule = FailedRule(id: int, name: string, rule: string, reasons: seq<string>)

  datatype GateResult = GateResult(
    total: nat, passedIds: seq<int>, failedIds: seq<int>, failed: seq<FailedRule>,
    passedCount: nat, failedCount: nat, passed: bool)

  /** A rule passes when its text parses and the explaining evaluator accepts the row. */
  predicate Passes<A>(cc: Classes, fl: Floats, p: RuleProgram<A>, row: Row) {
    Parse(cc, p.source).Some? && Explain(fl, Parse(cc, p.source).value, row).passed
  }

  /** The reasons reported for a rule that does not pass. */
  function Why<A>(cc: Classes, fl: Floats, p: RuleProgram<A>, row: Row): seq<string> {
    if Parse(cc, p.source).None? then [p.source] else Explain(fl, Parse(cc, p.source).value, row).reasons
  }

  function FailedOf<A>(cc: Classes, fl: Floats, p: RuleProgram<A>, row: Row): FailedRule {
    FailedRule(p.id, p.name, p.source, Why(cc, fl, p, row))
  }

  function Select<A>(cc: Classes, fl: Floats, rules: seq<RuleProgram<A>>, row: Row, wanted: bool): seq<int> {
    if rules == [] then []
    else
      var rest := Select(cc, fl, rules[1..], row, wanted);
      (if Passes(cc, fl, rules[0], row) == wanted then [rules[0].id] else []) + rest
  }

  function Refused<A>(cc: Classes, fl: Floats, rules: seq<RuleProgram<A>>, row: Row): seq<FailedRule> {
    if rules == [] then []
    else
      var rest := Refused(cc, fl, rules[1..], row);
      (if Passes(cc, fl, rules[0], row) then [] else [FailedOf(cc, fl, rules[0], row)]) + rest
  }

  lemma SelectStep<A>(cc: Classes, fl: Floats, rules: seq<RuleProgram<A>>, i: nat, row: Row, wanted: bool,
                      acc: seq<int>)
    requires i < |rules|
    ensures acc + Select(cc, fl, rules[i..], row, wanted) ==
            (if Passes(cc, fl, rules[i], row) == wanted then acc + [rules[i].id] else acc) +
            Select(cc, fl, rules[i + 1..], row, wanted)
  {
    hide Passes;
    assert rules[i..][0] == rules[i] && rules[i..][1..] == rules[i + 1..];
    var rest := Select(cc, fl, rules[i + 1..], row, wanted);
    assert acc + ([rules[i].id] + rest) == acc + [rules[i].id] + rest && acc + ([] + rest) == acc + rest;
  }

  lemma RefusedStep<A>(cc: Classes, fl: Floats, rules: seq<RuleProgram<A>>, i: nat, row: Row, acc: seq<FailedRule>)
    requires i < |rules|
    ensures acc + Refused(cc, fl, rules[i..], row) ==
            (if Passes(cc, fl, rules[i], row) then acc else acc + [FailedOf(cc, fl, rules[i], row)])
            + Refused(cc, fl, rules[i + 1..], row)
  {
    hide Passes, Why;
    assert rules[i..][0] == rules[i] && rules[i..][1..] == rules[i + 1..];
    var f, rest := FailedOf(cc, fl, rules[i], row), Refused(cc, fl, rules[i + 1..], row);
    assert acc + ([f] + rest) == acc + [f] + rest && acc + ([] + rest) == acc + rest;
  }

  method EvaluateAll<A>(cc: Classes, fl: Floats, snapshot: seq<RuleProgram<A>>, row: Row) returns (res: GateResult)
    ensures res.total == |snapshot|
    ensures res.passedIds == Select(cc, fl, snapshot, row, true)
    ensures res.failedIds == Select(cc, fl, snapshot, row, false)
    ensures res.failed == Refused(cc, fl, snapshot, row)
    ensures res.passedCount == |res.passedIds| && res.failedCount == |res.failedIds|
    ensures res.passed <==> res.total > 0 && res.failedCount == 0
  {
    hide Passes, Why;
    var yes: seq<int>, no: seq<int>, failed: seq<FailedRule> := [], [], [];
    assert snapshot[0..] == snapshot;
    for i := 0 to |snapshot|
      invariant Select(cc, fl, snapshot, row, true) == yes + Select(cc, fl, snapshot[i..], row, true)
      invariant Select(cc, fl, snapshot, row, false) == no + Select(cc, fl, snapshot[i..], row, false)
      invariant Refused(cc, fl, snapshot, row) == failed + Refused(cc, fl, snapshot[i..], row)
    {
      hide Select, Refused;
      SelectStep(cc, fl, snapshot, i, row, true, yes);
      SelectStep(cc, fl, snapshot, i, row, false, no);
      RefusedStep(cc, fl, snapshot, i, row, failed);
      var ok, reasons := EvaluateOne(cc, fl, snapshot[i], row);
      if ok {
        yes := yes + [snapshot[i].id];
      } else {
        no := no + [snapshot[i].id];
        failed := failed + [FailedRule(snapshot[i].id, snapshot[i].name, snapshot[i].source, reasons)];
      }
    }
    assert snapshot[|snapshot|..] == [];
    res := GateResult(|snapshot|, yes, no, failed, |yes|, |no|, |snapshot| > 0 && |no| == 0);
  }

  method EvaluateOne<A>(cc: Classes, fl: Floats, p: RuleProgram<A>, row: Row) returns (ok: bool, reasons: seq<string>)
    ensures ok == Passes(cc, fl, p, row) == Accepts(cc, fl, p, row)
    ensures !ok ==> reasons == Why(cc, fl, p, row) && ReasonsFor(cc, fl, p, row, reasons)
  {
    WhyExactly(cc, fl, p, row);
    var n := ParseText(cc, p.source);
    if n.None? { return false, [p.source]; }
    var v := ExplainNode(fl, n.value, row);
    return v.passed, v.reasons;
  }

  /** Passed and failed ids together are the snapshot's, and nothing fails iff every rule passes. */
  lemma {:induction false} GateSplits<A>(cc: Classes, fl: Floats, rules: seq<RuleProgram<A>>, row: Row, id: int)
    ensures multiset(Select(cc, fl, rules, row, true))[id] + multiset(Select(cc, fl, rules, row, false))[id] ==
            multiset(Ids(rules))[id]
    ensures |Select(cc, fl, rules, row, true)| + |Select(cc, fl, rules, row, false)| == |rules|
    ensures |Refused(cc, fl, rules, row)| == |Select(cc, fl, rules, row, false)|
  {
    hide Passes, Why;
    if rules != [] {
      GateSplits(cc, fl, rules[1..], row, id);
    }
  }

  lemma {:induction false} GateOpens<A>(cc: Classes, fl: Floats, rules: seq<RuleProgram<A>>, row: Row)
    ensures Select(cc, fl, rules, row, false) == [] <==> forall i :: 0 <= i < |rules| ==> Passes(cc, fl, rules[i], row)
  {
    hide Passes;
    if rules != [] {
      var rest := rules[1..];
      GateOpens(cc, fl, rest, row);
      assert (forall i :: 0 <= i < |rules| ==> Passes(cc, fl, rules[i], row)) ==>
             forall i :: 0 <= i < |rest| ==> Passes(cc, fl, rest[i], row);
      if Passes(cc, fl, rules[0], row) && forall i :: 0 <= i < |rest| ==> Passes(cc, fl, rest[i], row) {
        forall i | 0 <= i < |rules| ensures Passes(cc, fl, rules[i], row) {
          if i > 0 { assert rest[i - 1] == rules[i]; }
        }
      }
    }
  }

  function Ids<A>(rules: seq<RuleProgram<A>>): seq<int> { if rules == [] then [] else [rules[0].id] + Ids(rules[1..]) }

  // ---- exactly what is reported -------------------------------------------------------------------------

  /** The rule's text parses and its tree holds of the row. */
  predicate Accepts<A>(cc: Classes, fl: Floats, p: RuleProgram<A>, row: Row) {
    Parse(cc, p.source).Some? && Walk(fl, Parse(cc, p.source).value, row)
  }

  /** Reasons for refusing a rule: its text when that does not parse, else the texts of its false conjuncts. */
  ghost predicate ReasonsFor<A>(cc: Classes, fl: Floats, p: RuleProgram<A>, row: Row, reasons: seq<string>) {
    match Parse(cc, p.source)
    case None => reasons == [p.source]
    case Some(n) => Reports(fl, n, row, reasons)
  }

  lemma WhyExactly<A>(cc: Classes, fl: Floats, p: RuleProgram<A>, row: Row)
    ensures Passes(cc, fl, p, row) == Accepts(cc, fl, p, row)
    ensures ReasonsFor(cc, fl, p, row, Why(cc, fl, p, row))
  {
    hide Parse, Explain, Walk, Reports;
    if Parse(cc, p.source).Some? { ExplainExactly(fl, Parse(cc, p.source).value, row); }
  }

  /** Passed ids are those of the accepted rules, in order. */
  lemma {:induction false} SelectExactly<A>(cc: Classes, fl: Floats, rules: seq<RuleProgram<A>>, row: Row, wanted: bool)
    returns (ks: seq<nat>)
    ensures Picks(ks, rules, (p: RuleProgram<A>) => Accepts(cc, fl, p, row) == wanted)
    ensures |Select(cc, fl, rules, row, wanted)| == |ks|
    ensures forall j :: 0 <= j < |ks| ==> ks[j] < |rules| && Select(cc, fl, rules, row, wanted)[j] == rules[ks[j]].id
  {
    hide Picks, PickedCons, Accepts, Passes;
    if rules == [] {
      ks := [];
      PicksNone(rules, (p: RuleProgram<A>) => Accepts(cc, fl, p, row) == wanted);
    } else {
      WhyExactly(cc, fl, rules[0], row);
      var tail := SelectExactly(cc, fl, rules[1..], row, wanted);
      var first := Accepts(cc, fl, rules[0], row) == wanted;
      PicksCons(tail, rules, (p: RuleProgram<A>) => Accepts(cc, fl, p, row) == wanted);
      ks := PickedCons(first, tail);
      PickedSize(first, tail);
      forall j | 0 <= j < |ks|
        ensures ks[j] < |rules| && Select(cc, fl, rules, row, wanted)[j] == rules[ks[j]].id {
        PickedAt(first, tail, j);
      }
    }
  }

  /** A report about a rule: its own id, name and text, and the reasons for refusing it. */
  ghost predicate Describes<A>(cc: Classes, fl: Floats, f: FailedRule, p: RuleProgram<A>, row: Row) {
    f.id == p.id && f.name == p.name && f.rule == p.source && ReasonsFor(cc, fl, p, row, f.reasons)
  }

  /** The failed rules are reported one by one, in the order of the failed ids, each with its own reasons. */
  lemma {:induction false} RefusedExactly<A>(cc: Classes, fl: Floats, rules: seq<RuleProgram<A>>, row: Row)
    returns (ks: seq<nat>)
    ensures Picks(ks, rules, (p: RuleProgram<A>) => Accepts(cc, fl, p, row) == false)
    ensures |Refused(cc, fl, rules, row)| == |Select(cc, fl, rules, row, false)| == |ks|
    ensures forall j :: 0 <= j < |ks| ==>
              && ks[j] < |rules| && Describes(cc, fl, Refused(cc, fl, rules, row)[j], rules[ks[j]], row)
              && Select(cc, fl, rules, row, false)[j] == rules[ks[j]].id
  {
    hide Picks, PickedCons, Accepts, Passes, Why, ReasonsFor;
    if rules == [] {
      ks := [];
      PicksNone(rules, (p: RuleProgram<A>) => Accepts(cc, fl, p, row) == false);
    } else {
      WhyExactly(cc, fl, rules[0], row);
      var tail := RefusedExactly(cc, fl, rules[1..], row);
      var first := Accepts(cc, fl, rules[0], row) == false;
      PicksCons(tail, rules, (p: RuleProgram<A>) => Accepts(cc, fl, p, row) == false);
      ks := PickedCons(first, tail);
      PickedSize(first, tail);
      var out, ids := Refused(cc, fl, rules, row), Select(cc, fl, rules, row, false);
      forall j | 0 <= j < |ks|
        ensures ks[j] < |rules| && Describes(cc, fl, out[j], rules[ks[j]], row) && ids[j] == rules[ks[j]].id {
        PickedAt(first, tail, j);
      }
    }
  }

  /** Only false conjuncts are reported, and all of them. */
  lemma ReasonsAreConjuncts(fl: Floats, cs: seq<Node>, row: Row, ks: seq<nat>, reasons: seq<string>)
    requires Picks(ks, cs, c => !Walk(fl, c, row)) && TextsAt(cs, ks, reasons)
    ensures forall r :: r in reasons ==> exists c :: c in cs && Sql(c) == r && !Walk(fl, c, row)
    ensures forall c :: c in cs && !Walk(fl, c, row) ==> Sql(c) in reasons
  {
    hide Walk, Sql;
    forall r | r in reasons ensures exists c :: c in cs && Sql(c) == r && !Walk(fl, c, row) {
      var j :| 0 <= j < |reasons| && reasons[j] == r;
      assert ks[j] in ks && cs[ks[j]] in cs;
    }
    forall c | c in cs && !Walk(fl, c, row) ensures Sql(c) in reasons {
      var k: nat :| k < |cs| && cs[k] == c;
      assert k in ks;
      var j :| 0 <= j < |ks| && ks[j] == k;
      assert reasons[j] == Sql(c);
    }
  }

  /** Every refused rule comes with a reason, and every reason is the text of a part that is false on the row. */
  lemma ReasonsBlame(fl: Floats, n: Node, row: Row, reasons: seq<string>)
    requires Reports(fl, n, row, reasons)
    ensures Walk(fl, n, row) <==> reasons == []
    ensures forall r :: r in reasons ==> Blames(fl, r, n, row)
    ensures forall c :: c in Conjuncts(n) && !Walk(fl, c, row) ==> Sql(c) in reasons
    ensures !(n.Logic? && n.op != "OR") && !Walk(fl, n, row) ==> reasons == [Sql(n)]
  {
    hide Walk, Sql, Picks, TextsAt, Conjuncts, Within;
    ConjunctsMean(fl, n, row);
    var cs := Conjuncts(n);
    var ks :| Picks(ks, cs, c => !Walk(fl, c, row)) && TextsAt(cs, ks, reasons);
    ReasonsAreConjuncts(fl, cs, row, ks, reasons);
    if reasons != [] { assert reasons[0] in reasons; }
    if !(n.Logic? && n.op != "OR") && !Walk(fl, n, row) {
      ItsOwnConjunct(n);
      OnlyReason(ks, cs, reasons, fl, row);
    }
  }

  lemma ItsOwnConjunct(n: Node)
    requires !(n.Logic? && n.op != "OR")
    ensures Conjuncts(n) == [n]
  {
  }

  lemma OnlyReason(ks: seq<nat>, cs: seq<Node>, reasons: seq<string>, fl: Floats, row: Row)
    requires |cs| == 1 && !Walk(fl, cs[0], row) && Picks(ks, cs, c => !Walk(fl, c, row)) && TextsAt(cs, ks, reasons)
    ensures reasons == [Sql(cs[0])]
  {
    hide Walk, Sql;
    assert 0 in ks;
    forall i | 0 <= i < |ks| ensures ks[i] == 0 { assert ks[i] in ks; }
    IncreasingBound(ks, |ks| - 1);
  }

  /** Each failing operand of an AND is blamed by some reason. */
  lemma OperandBlamed(fl: Floats, n: Node, row: Row, reasons: seq<string>, i: nat) returns (r: string)
    requires Reports(fl, n, row, reasons) && n.Logic? && n.op != "OR" && i < |n.args| && !Walk(fl, n.args[i], row)
    ensures r in reasons && Blames(fl, r, n.args[i], row)
  {
    hide Walk, Sql, Reports;
    ReasonsBlame(fl, n, row, reasons);
    ConjunctsMean(fl, n.args[i], row);
    OperandConjuncts(n.args, i);
    var c :| c in Conjuncts(n.args[i]) && !Walk(fl, c, row);
    r := Sql(c);
  }

  /** Every refused rule comes with at least one reason. */
  lemma {:induction false} RefusedHaveReasons<A>(cc: Classes, fl: Floats, rules: seq<RuleProgram<A>>, row: Row)
    ensures forall f :: f in Refused(cc, fl, rules, row) ==> f.reasons != []
  {
    if rules != [] {
      RefusedHaveReasons(cc, fl, rules[1..], row);
      if Parse(cc, rules[0].source).Some? { ExplainSound(fl, Parse(cc, rules[0].source).value, row); }
    }
  }

  /** A cached rule on which gate and match see the same thing: no clash, agreeing leaves, within the stack. */
  ghost predicate Matched(cc: Classes, fl: Floats, p: RuleProgram<Program>, row: Row) {
    && Parse(cc, p.source).Some?
    && CompileText(cc, fl, p.source) == Some(p.ast)
    && var n := Parse(cc, p.source).value;
       NoClash(n) && Need(Optimize(n)) <= STACK_MAX && LeavesAgree(fl, n, row)
  }

  lemma GateRuleIsMatch(cc: Classes, fl: Floats, p: RuleProgram<Program>, row: Row)
    requires cc.Sane() && Matched(cc, fl, p, row)
    ensures Passes(cc, fl, p, row) == EvalProgram(fl, row, p.ast)
  {
    hide Parse, Explain, CompileText, EvalProgram, Walk, Optimize, NoClash, LeavesAgree, Compilable, Holds, Need;
    var n := Parse(cc, p.source).value;
    RuleMeans(cc, fl, p.source, n, row);
    ExplainSound(fl, n, row);
    TreesAgree(fl, n, row);
  }

  /** On such rules the gate's passed ids are exactly what Match returns for the row. */
  lemma {:induction false} GateIsMatch(cc: Classes, fl: Floats, rules: seq<RuleProgram<Program>>, row: Row)
    requires cc.Sane() && forall i :: 0 <= i < |rules| ==> Matched(cc, fl, rules[i], row)
    ensures Select(cc, fl, rules, row, true) == MatchIds(Native(cc, fl), rules, row)
  {
    hide Passes, Matched;
    if rules != [] {
      GateRuleIsMatch(cc, fl, rules[0], row);
      forall i | 0 <= i < |rules| - 1 ensures Matched(cc, fl, rules[1..][i], row) {
        assert rules[1..][i] == rules[i + 1];
      }
      GateIsMatch(cc, fl, rules[1..], row);
    }
  }
}
