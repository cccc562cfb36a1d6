/** What a rule means, stated without reference to bytecode, and when it compiles. */
module Meaning {
  import opened Prelude
  import opened Ir
  import opened Vm
  import opened LikePatterns
  import opened Compiler

  predicate NumRel(fl: Floats, op: string, x: F64, y: F64) {
    match op
    case "=" | "==" => fl.eq(x, y)
    case "!=" => !fl.eq(x, y)
    case ">" => fl.lt(y, x)
    case ">=" => fl.le(y, x)
    case "<" => fl.lt(x, y)
    case "<=" => fl.le(x, y)
    case _ => false
  }

  predicate StrRel(op: string, s: string, t: string) {
    match op
    case "=" | "==" => s == t
    case "!=" => s != t
    case ">" => StrLess(t, s)
    case ">=" => !StrLess(s, t)
    case "<" => StrLess(s, t)
    case "<=" => !StrLess(t, s)
    case _ => false
  }

  /** A literal as the machine shows it: numbers in canonical form. */
  function Shown(fl: Floats, v: Literal): string {
    if v.Num? && fl.parse(v.text).Some? then fl.format(fl.parse(v.text).value) else v.text
  }

  /** A missing, null or non-scalar field satisfies no comparison; numbers compare as numbers. */
  predicate CompareHolds(fl: Floats, x: Value, op: string, v: Literal) {
    && !x.Undef?
    && if x.NumV? && NumOf(fl, v).Some? then NumRel(fl, op, x.n, NumOf(fl, v).value)
       else StrRel(op, x.AsString(fl), Shown(fl, v))
  }

  predicate BetweenHolds(fl: Floats, x: Value, lo: Literal, hi: Literal) {
    && x.NumV? && NumOf(fl, lo).Some? && NumOf(fl, hi).Some?
    && fl.le(NumOf(fl, lo).value, x.n) && fl.le(x.n, NumOf(fl, hi).value)
  }

  predicate Holds(fl: Floats, n: Node, row: Row) {
    match n
    case Logic(op, args) =>
      if op == "OR" then exists a :: a in args && Holds(fl, a, row)
      else forall a :: a in args ==> Holds(fl, a, row)
    case Compare(f, op, v) => CompareHolds(fl, Field(row, f), op, v)
    case Between(f, lo, hi) => BetweenHolds(fl, Field(row, f), lo, hi)
    case In(f, vs, neg) =>
      var x := Field(row, f);
      (!x.Undef? && exists v :: v in vs && v.text == x.AsString(fl)) != neg
    case Like(f, p, neg) =>
      var x := Field(row, f);
      (!x.Undef? && LikeHolds(x.AsString(fl), p)) != neg
    case IsNull(f, neg) => Field(row, f).Undef? != neg
    case Not(a) => !Holds(fl, a, row)
  }

  /** No empty AND/OR, known operators, and number literals that parse. */
  predicate Compilable(fl: Floats, n: Node) {
    match n
    case Logic(_, args) => args != [] && forall a :: a in args ==> Compilable(fl, a)
    case Compare(_, op, v) => (v.Num? ==> NumOf(fl, v).Some?) && CmpOp(op).Some?
    case Between(_, lo, hi) => NumOf(fl, lo).Some? && NumOf(fl, hi).Some?
    case Not(a) => Compilable(fl, a)
    case _ => true
  }

  function Max(a: nat, b: nat): nat { if a < b then b else a }

  /** Stack slots used while evaluating a node, its result included. */
  function Need(n: Node): nat
    decreases n, 1
  {
    match n
    case Logic(_, args) => if args == [] then 0 else Max(Need(args[0]), NeedTail(args[1..]))
    case Compare(_, _, _) => 2
    case Between(_, _, _) => 3
    case Not(a) => Need(a)
    case _ => 1
  }

  /** Operands after the first are evaluated above the accumulated result. */
  function NeedTail(args: seq<Node>): nat
    decreases args, 0
  {
    if args == [] then 0 else Max(1 + Need(args[0]), NeedTail(args[1..]))
  }
}
