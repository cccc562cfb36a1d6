/** Rule text to answer: the native-front-end bytecode backend (pkg/engine/backend_bytecode.go:27-50). */
module Pipeline {
  import opened Prelude
  import opened Ir
  import opened Lexer
  import opened Parser
  import opened RoundTrip
  import opened RoundTripExact
  import opened Vm
  import opened Compiler
  import opened Meaning
  import opened CompilerCorrect
  import opened Optimizer
  import opened OptimizerCorrect
  import opened Engine

  function CompileText(cc: Classes, fl: Floats, text: string): Option<Program> {
    match Parse(cc, text)
    case None => None
    case Some(n) => Compile(fl, Optimize(n))
  }

  method CompileRule(cc: Classes, fl: Floats, text: string) returns (p: Option<Program>)
    ensures p == CompileText(cc, fl, text)
  {
    var n := ParseText(cc, text);
    if n.None? { return None; }
    var o := OptimizeNode(n.value);
    p := CompileNode(fl, o);
  }

  predicate EvalProgram(fl: Floats, row: Row, p: Program) { Indexed(p.pools, p.code) && Eval(fl, p, row) }

  function Native(cc: Classes, fl: Floats): Backend<Program> {
    Backend(text => CompileText(cc, fl, text), (row, p) => EvalProgram(fl, row, p))
  }

  /**
   * From text to answer: a rule in which no two different operands print alike compiles exactly when
   * its tree is compilable, and then answers with the tree's meaning, or false when the optimised
   * tree needs more than the machine's stack.
   */
  lemma RuleMeans(cc: Classes, fl: Floats, text: string, n: Node, row: Row)
    requires cc.Sane() && Parse(cc, text) == Some(n) && NoClash(n)
    ensures CompileText(cc, fl, text).Some? <==> Compilable(fl, n)
    ensures CompileText(cc, fl, text).Some? ==>
              EvalProgram(fl, row, CompileText(cc, fl, text).value) ==
              (Need(Optimize(n)) <= STACK_MAX && Holds(fl, n, row))
    ensures Need(Optimize(n)) <= Need(n)
  {
    hide Parse, Compile, Eval, Holds, Optimize;
    ParsedIsShaped(cc, text, n);
    Wider(cc, n);
    TidyNoEmpty(cc, n);
    OptimizeThenCompile(fl, n, row);
    CompileCorrect(fl, n, row);
    OptimizeNeed(n);
  }

  /** Rules whose strings hold no quote or backslash are of that kind. */
  lemma QuietRule(cc: Classes, text: string, n: Node)
    requires cc.Sane() && Parse(cc, text) == Some(n) && Quiet(n)
    ensures NoClash(n)
  {
    ParsedIsShaped(cc, text, n);
    Wider(cc, n);
    TidyNoClash(cc, n);
  }
}
