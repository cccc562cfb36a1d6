/** The bytecode virtual machine (pkg/vm/opcode.go, pkg/vm/value.go, pkg/vm/vm.go). */
module Vm {
  import opened Prelude

  // ---- numbers and rows ------------------------------------------------------------------

  /** A float64 as its 64-bit pattern; all arithmetic on it is a parameter. */
  type F64 = x: int | 0 <= x < 0x1_0000_0000_0000_0000

  /** strconv.ParseFloat and FormatFloat, and Go's <, <= and == on float64. */
  datatype Floats = Floats(
    parse: string -> Option<F64>,
    format: F64 -> string,
    lt: (F64, F64) -> bool,
    le: (F64, F64) -> bool,
    eq: (F64, F64) -> bool)

  /** A field value as the engine tells them apart; every Go numeric type is converted to float64. */
  datatype Cell = Nil | Flag(b: bool) | Number(n: F64) | Text(s: string) | Other

  type Row = map<string, Cell>

  // ---- stack values ----------------------------------------------------------------------

  datatype Value = Undef | NumV(n: F64) | StrV(s: string) | BoolV(b: bool) {
    /** The b field of the flat struct: false unless the value is a boolean. */
    predicate Truth() { BoolV? && b }

    function AsString(fl: Floats): string {
      match this
      case StrV(s) => s
      case NumV(n) => fl.format(n)
      case BoolV(b) => if b then "true" else "false"
      case Undef => ""
    }
  }

  function ToValue(c: Cell): Value {
    match c
    case Flag(b) => BoolV(b)
    case Number(n) => NumV(n)
    case Text(s) => StrV(s)
    case _ => Undef
  }

  function Field(row: Row, name: string): Value {
    if name in row then ToValue(row[name]) else Undef
  }

  predicate Eq(fl: Floats, a: Value, b: Value) {
    if a.NumV? && b.NumV? then fl.eq(a.n, b.n)
    else if a.BoolV? && b.BoolV? then a.b == b.b
    else a.AsString(fl) == b.AsString(fl)
  }

  // ---- programs --------------------------------------------------------------------------

  datatype OpCode =
    | LoadField | ConstNum | ConstStr
    | OpEq | OpNe | OpGt | OpGe | OpLt | OpLe | OpBetween
    | OpIn | LikePrefix | LikeSuffix | LikeContains | LikeEq
    | OpIsNull | OpIsNotNull | OpAnd | OpOr | OpNot

  datatype Instr = Instr(op: OpCode, a: nat)

  datatype Pools = Pools(nums: seq<F64>, strs: seq<string>, fields: seq<string>, sets: seq<set<string>>)

  datatype Program = Program(code: seq<Instr>, pools: Pools)

  const STACK_MAX := 256

  /** The operand of every pool instruction is a slot of its pool; Go would panic otherwise. */
  predicate Indexed(k: Pools, code: seq<Instr>) {
    forall i :: 0 <= i < |code| ==> InPool(k, code[i])
  }

  predicate InPool(k: Pools, i: Instr) {
    match i.op
    case LoadField => i.a < |k.fields|
    case ConstNum => i.a < |k.nums|
    case ConstStr | LikePrefix | LikeSuffix | LikeContains | LikeEq => i.a < |k.strs|
    case OpIn => i.a < |k.sets|
    case _ => true
  }

  // ---- one instruction -------------------------------------------------------------------

  predicate IsPush(op: OpCode) { op.LoadField? || op.ConstNum? || op.ConstStr? }
  predicate IsBinary(op: OpCode) { op in {OpEq, OpNe, OpGt, OpGe, OpLt, OpLe, OpAnd, OpOr} }

  function Load(k: Pools, i: Instr, row: Row): Value
    requires InPool(k, i) && IsPush(i.op)
  {
    if i.op == ConstNum then NumV(k.nums[i.a])
    else if i.op == ConstStr then StrV(k.strs[i.a])
    else Field(row, k.fields[i.a])
  }

  predicate Compare(fl: Floats, a: Value, b: Value, op: OpCode) {
    if a.Undef? || b.Undef? then false
    else match op
      case OpEq => Eq(fl, a, b)
      case OpNe => !Eq(fl, a, b)
      case OpGt => if a.NumV? && b.NumV? then fl.lt(b.n, a.n) else StrLess(b.AsString(fl), a.AsString(fl))
      case OpGe => if a.NumV? && b.NumV? then fl.le(b.n, a.n) else !StrLess(a.AsString(fl), b.AsString(fl))
      case OpLt => if a.NumV? && b.NumV? then fl.lt(a.n, b.n) else StrLess(a.AsString(fl), b.AsString(fl))
      case OpLe => if a.NumV? && b.NumV? then fl.le(a.n, b.n) else !StrLess(b.AsString(fl), a.AsString(fl))
      case _ => false
  }

  predicate BinaryOp(fl: Floats, op: OpCode, a: Value, b: Value) {
    match op
    case OpAnd => a.Truth() && b.Truth()
    case OpOr => a.Truth() || b.Truth()
    case _ => Compare(fl, a, b, op)
  }

  predicate BetweenOp(fl: Floats, x: Value, lo: Value, hi: Value) {
    x.NumV? && lo.NumV? && hi.NumV? && fl.le(lo.n, x.n) && fl.le(x.n, hi.n)
  }

  /** strings.HasPrefix, HasSuffix and Contains. */
  predicate HasPrefix(s: string, core: string) { core <= s }
  predicate HasSuffix(s: string, core: string) { |core| <= |s| && s[|s| - |core|..] == core }
  predicate Contains(s: string, core: string) {
    exists i :: 0 <= i <= |s| && HasPrefix(s[i..], core)
  }

  predicate UnaryOp(fl: Floats, k: Pools, i: Instr, x: Value)
    requires InPool(k, i)
  {
    match i.op
    case OpIn => x.AsString(fl) in k.sets[i.a] && !x.Undef?
    case LikePrefix => !x.Undef? && HasPrefix(x.AsString(fl), k.strs[i.a])
    case LikeSuffix => !x.Undef? && HasSuffix(x.AsString(fl), k.strs[i.a])
    case LikeContains => !x.Undef? && Contains(x.AsString(fl), k.strs[i.a])
    case LikeEq => !x.Undef? && x.AsString(fl) == k.strs[i.a]
    case OpIsNull => x.Undef?
    case OpIsNotNull => !x.Undef?
    case OpNot => x.BoolV? && !x.b
    case _ => false
  }

  /** The stack after one instruction; None when Eval gives up and answers false. */
  function Step(fl: Floats, k: Pools, i: Instr, st: seq<Value>, row: Row): Option<seq<Value>>
    requires InPool(k, i)
  {
    var n := |st|;
    if IsPush(i.op) then
      if n >= STACK_MAX then None else Some(st + [Load(k, i, row)])
    else if i.op == OpBetween then
      if n < 3 then None else Some(st[..n - 3] + [BoolV(BetweenOp(fl, st[n - 3], st[n - 2], st[n - 1]))])
    else if IsBinary(i.op) then
      if n < 2 then None else Some(st[..n - 2] + [BoolV(BinaryOp(fl, i.op, st[n - 2], st[n - 1]))])
    else if n < 1 then None
    else Some(st[..n - 1] + [BoolV(UnaryOp(fl, k, i, st[n - 1]))])
  }

  function Exec(fl: Floats, k: Pools, code: seq<Instr>, st: seq<Value>, row: Row): Option<seq<Value>>
    requires Indexed(k, code)
  {
    if code == [] then Some(st)
    else match Step(fl, k, code[0], st, row)
      case None => None
      case Some(st') => Exec(fl, k, code[1..], st', row)
  }

  predicate Eval(fl: Floats, p: Program, row: Row)
    requires Indexed(p.pools, p.code)
  {
    var r := Exec(fl, p.pools, p.code, [], row);
    r.Some? && |r.value| == 1 && r.value[0].Truth()
  }

  // ---- the machine: a fixed array and a stack pointer ---------------------------------------

  /** What executing the first instruction does to the rest of the run. */
  lemma ExecStep(fl: Floats, k: Pools, code: seq<Instr>, i: nat, st: seq<Value>, row: Row)
    requires Indexed(k, code) && i < |code|
    ensures Exec(fl, k, code[i..], st, row) ==
            match Step(fl, k, code[i], st, row)
            case None => None
            case Some(st') => Exec(fl, k, code[i + 1..], st', row)
  {
    hide Step;
    assert code[i..][0] == code[i] && code[i..][1..] == code[i + 1..];
  }

  /** The instruction at the cursor, on the array and stack pointer; ok is false when Eval gives up. */
  method Execute(fl: Floats, k: Pools, ins: Instr, st: array<Value>, sp0: nat, row: Row) returns (ok: bool, sp: nat)
    requires InPool(k, ins) && st.Length == STACK_MAX && sp0 <= STACK_MAX
    modifies st
    ensures sp <= STACK_MAX
    ensures Step(fl, k, ins, old(st[..sp0]), row) == if ok then Some(st[..sp]) else None
  {
    hide BinaryOp, UnaryOp, BetweenOp, Load;
    sp := sp0;
    ghost var before := st[..sp0];
    if IsPush(ins.op) {
      if sp >= STACK_MAX { return false, sp; }
      st[sp] := Load(k, ins, row);
      sp := sp + 1;
      assert st[..sp] == before + [Load(k, ins, row)];
    } else if ins.op == OpBetween {
      if sp < 3 { return false, sp; }
      var x, lo, hi := st[sp - 3], st[sp - 2], st[sp - 1];
      sp := sp - 2;
      st[sp - 1] := BoolV(BetweenOp(fl, x, lo, hi));
      assert st[..sp] == before[..sp0 - 3] + [st[sp - 1]];
    } else if IsBinary(ins.op) {
      if sp < 2 { return false, sp; }
      var a, b := st[sp - 2], st[sp - 1];
      sp := sp - 1;
      st[sp - 1] := BoolV(BinaryOp(fl, ins.op, a, b));
      assert st[..sp] == before[..sp0 - 2] + [st[sp - 1]];
    } else {
      if sp < 1 { return false, sp; }
      st[sp - 1] := BoolV(UnaryOp(fl, k, ins, st[sp - 1]));
      assert st[..sp] == before[..sp0 - 1] + [st[sp - 1]];
    }
    ok := true;
  }

  method Run(fl: Floats, p: Program, row: Row) returns (b: bool)
    requires Indexed(p.pools, p.code)
    ensures b == Eval(fl, p, row)
  {
    hide Step;
    var st := new Value[STACK_MAX](i => Undef);
    var sp: nat := 0;
    assert p.code[0..] == p.code && st[..0] == [];
    for i := 0 to |p.code|
      invariant sp <= STACK_MAX
      invariant Exec(fl, p.pools, p.code, [], row) == Exec(fl, p.pools, p.code[i..], st[..sp], row)
    {
      ExecStep(fl, p.pools, p.code, i, st[..sp], row);
      var ok;
      ok, sp := Execute(fl, p.pools, p.code[i], st, sp, row);
      if !ok { return false; }
    }
    assert p.code[|p.code|..] == [];
    if sp != 1 { return false; }
    b := st[0].BoolV? && st[0].b;
  }
}
