/**
 * Compiled rules mean what their trees mean (pkg/vm/compile.go:74-172 against pkg/vm/vm.go:15-118):
 * exact results within the fixed stack, false beyond it.
 */
module CompilerCorrect {
  import opened Prelude
  import opened Ir
  import opened Vm
  import opened LikePatterns
  import opened Compiler
  import opened Meaning

  // ---- pools only grow, and code stays valid as they do --------------------------------------

  predicate Extends(k: Pools, k': Pools) {
    k.nums <= k'.nums && k.strs <= k'.strs && k.fields <= k'.fields && k.sets <= k'.sets
  }

  lemma ExtendsTrans(a: Pools, b: Pools, c: Pools)
    requires Extends(a, b) && Extends(b, c)
    ensures Extends(a, c)
  {
  }

  lemma IndexedGrows(k: Pools, k': Pools, code: seq<Instr>)
    requires Indexed(k, code) && Extends(k, k')
    ensures Indexed(k', code)
  {
    forall i | 0 <= i < |code| ensures InPool(k', code[i]) { assert InPool(k, code[i]); }
  }

  lemma IndexedConcat(k: Pools, c: seq<Instr>, d: seq<Instr>)
    requires Indexed(k, c) && Indexed(k, d)
    ensures Indexed(k, c + d)
  {
  }

  lemma FieldGrows(k: Pools, f: string)
    ensures Extends(k, WithField(k, f)) && InPool(WithField(k, f), LoadOf(k, f))
  {
  }

  lemma ValueGrows(fl: Floats, v: Literal, k: Pools)
    requires LowerVal(fl, v, k).Some?
    ensures var (c, k1) := LowerVal(fl, v, k).value; Extends(k, k1) && Indexed(k1, c)
  {
  }

  lemma LeafGrows(fl: Floats, n: Node, k: Pools)
    requires Lower(fl, n, k).Some? && !n.Logic? && !n.Not?
    ensures var (c, k1) := Lower(fl, n, k).value; Extends(k, k1) && Indexed(k1, c)
  {
    hide WithField, LoadOf, LowerVal, LikeParts, LitTextSet;
    FieldGrows(k, n.field);
    match n
    case Compare(f, op, v) =>
      var k1 := WithField(k, f);
      ValueGrows(fl, v, k1);
      var (c, k2) := LowerVal(fl, v, k1).value;
      IndexedConcat(k2, [LoadOf(k, f)], c);
    case _ =>
  }

  lemma {:induction false} LowerGrows(fl: Floats, n: Node, k: Pools)
    requires Lower(fl, n, k).Some?
    ensures var (c, k1) := Lower(fl, n, k).value; Extends(k, k1) && Indexed(k1, c)
    decreases n, 1
  {
    var (c, k1) := Lower(fl, n, k).value;
    match n
    case Logic(op, args) =>
      var o := if op == "OR" then OpOr else OpAnd;
      LowerGrows(fl, args[0], k);
      var (c0, k0) := Lower(fl, args[0], k).value;
      TailGrows(fl, o, args[1..], k0);
      ExtendsTrans(k, k0, k1);
      IndexedGrows(k0, k1, c0);
    case Not(a) => LowerGrows(fl, a, k);
    case _ => LeafGrows(fl, n, k);
  }

  lemma {:induction false} TailGrows(fl: Floats, op: OpCode, args: seq<Node>, k: Pools)
    requires op in {OpAnd, OpOr} && LowerTail(fl, op, args, k).Some?
    ensures var (c, k1) := LowerTail(fl, op, args, k).value; Extends(k, k1) && Indexed(k1, c)
    decreases args, 0
  {
    if args != [] {
      LowerGrows(fl, args[0], k);
      var (c0, k0) := Lower(fl, args[0], k).value;
      TailGrows(fl, op, args[1..], k0);
      var (c1, k1) := LowerTail(fl, op, args[1..], k0).value;
      ExtendsTrans(k, k0, k1);
      IndexedGrows(k0, k1, c0);
    }
  }

  /** Compilation succeeds exactly on compilable trees, whatever the pools hold. */
  lemma {:induction false} LowerSucceeds(fl: Floats, n: Node, k: Pools)
    ensures Lower(fl, n, k).Some? <==> Compilable(fl, n)
    decreases n, 1
  {
    match n
    case Logic(op, args) =>
      if args != [] {
        LowerSucceeds(fl, args[0], k);
        if Lower(fl, args[0], k).Some? {
          TailSucceeds(fl, if op == "OR" then OpOr else OpAnd, args[1..], Lower(fl, args[0], k).value.1);
        }
        assert args == [args[0]] + args[1..];
      }
    case Not(a) => LowerSucceeds(fl, a, k);
    case _ =>
  }

  lemma {:induction false} TailSucceeds(fl: Floats, op: OpCode, args: seq<Node>, k: Pools)
    ensures LowerTail(fl, op, args, k).Some? <==> forall a :: a in args ==> Compilable(fl, a)
    decreases args, 0
  {
    if args != [] {
      LowerSucceeds(fl, args[0], k);
      if Lower(fl, args[0], k).Some? {
        TailSucceeds(fl, op, args[1..], Lower(fl, args[0], k).value.1);
      }
      assert args == [args[0]] + args[1..];
    }
  }

  // ---- running a piece of code -----------------------------------------------------------------

  lemma {:induction false} ExecConcat(fl: Floats, k: Pools, c: seq<Instr>, d: seq<Instr>, st: seq<Value>, row: Row)
    requires Indexed(k, c) && Indexed(k, d)
    ensures Indexed(k, c + d)
    ensures Exec(fl, k, c + d, st, row) ==
            match Exec(fl, k, c, st, row) case None => None case Some(st') => Exec(fl, k, d, st', row)
  {
    IndexedConcat(k, c, d);
    if c == [] {
      assert c + d == d;
    } else {
      assert (c + d)[0] == c[0] && (c + d)[1..] == c[1..] + d;
      match Step(fl, k, c[0], st, row)
      case None =>
      case Some(st') => ExecConcat(fl, k, c[1..], d, st', row);
    }
  }

  lemma ExecOne(fl: Floats, k: Pools, i: Instr, st: seq<Value>, row: Row)
    requires InPool(k, i)
    ensures Indexed(k, [i]) && Exec(fl, k, [i], st, row) == Step(fl, k, i, st, row)
  {
    assert [i][1..] == [];
    assert Indexed(k, [i]);
  }

  /** Some boolean pushed on st, or an overflow when `need` more slots are not there. */
  function Outcome(st: seq<Value>, need: nat, b: bool): Option<seq<Value>> {
    if |st| + need <= STACK_MAX then Some(st + [BoolV(b)]) else None
  }

  function PushOutcome(st: seq<Value>, v: Value): Option<seq<Value>> {
    if |st| < STACK_MAX then Some(st + [v]) else None
  }

  lemma PushOne(fl: Floats, k: Pools, i: Instr, st: seq<Value>, row: Row)
    requires InPool(k, i) && IsPush(i.op)
    ensures Indexed(k, [i]) && Exec(fl, k, [i], st, row) == PushOutcome(st, Load(k, i, row))
  {
    ExecOne(fl, k, i, st, row);
  }

  lemma StepUnary(fl: Floats, k: Pools, i: Instr, st: seq<Value>, v: Value, row: Row)
    requires InPool(k, i) && !IsPush(i.op) && i.op != OpBetween && !IsBinary(i.op)
    ensures Step(fl, k, i, st + [v], row) == Some(st + [BoolV(UnaryOp(fl, k, i, v))])
  {
    hide UnaryOp, InPool;
    assert (st + [v])[..|st|] == st;
  }

  lemma StepBinary(fl: Floats, k: Pools, op: OpCode, st: seq<Value>, v: Value, w: Value, row: Row)
    requires IsBinary(op)
    ensures InPool(k, Instr(op, 0))
    ensures Step(fl, k, Instr(op, 0), st + [v] + [w], row) == Some(st + [BoolV(BinaryOp(fl, op, v, w))])
  {
    hide BinaryOp;
    assert (st + [v] + [w])[..|st|] == st;
  }

  lemma StepBetween(fl: Floats, k: Pools, st: seq<Value>, x: Value, lo: Value, hi: Value, row: Row)
    ensures Step(fl, k, Instr(OpBetween, 0), st + [x] + [lo] + [hi], row) ==
            Some(st + [BoolV(BetweenOp(fl, x, lo, hi))])
  {
    hide BetweenOp;
    assert (st + [x] + [lo] + [hi])[..|st|] == st;
  }

  /** A push and a unary test. */
  lemma ThenUnary(fl: Floats, k: Pools, i: Instr, j: Instr, st: seq<Value>, row: Row)
    requires InPool(k, i) && IsPush(i.op) && |st| <= STACK_MAX
    requires InPool(k, j) && !IsPush(j.op) && j.op != OpBetween && !IsBinary(j.op)
    ensures Indexed(k, [i, j])
    ensures Exec(fl, k, [i, j], st, row) == Outcome(st, 1, UnaryOp(fl, k, j, Load(k, i, row)))
  {
    hide Exec, Step, UnaryOp, Load, IsPush, IsBinary;
    PushOne(fl, k, i, st, row);
    StepUnary(fl, k, j, st, Load(k, i, row), row);
    ExecOne(fl, k, j, st + [Load(k, i, row)], row);
    ExecConcat(fl, k, [i], [j], st, row);
    assert [i] + [j] == [i, j];
  }

  lemma ThenNot(fl: Floats, k: Pools, c: seq<Instr>, st: seq<Value>, row: Row, need: nat, b: bool)
    requires Indexed(k, c) && Exec(fl, k, c, st, row) == Outcome(st, need, b)
    ensures Indexed(k, c + [Instr(OpNot, 0)]) && Exec(fl, k, c + [Instr(OpNot, 0)], st, row) == Outcome(st, need, !b)
  {
    hide Exec, Step;
    var i := Instr(OpNot, 0);
    StepUnary(fl, k, i, st, BoolV(b), row);
    ExecOne(fl, k, i, st + [BoolV(b)], row);
    ExecConcat(fl, k, c, [i], st, row);
  }

  lemma ThenNegation(fl: Floats, k: Pools, c: seq<Instr>, st: seq<Value>, row: Row, need: nat, b: bool, neg: bool)
    requires Indexed(k, c) && Exec(fl, k, c, st, row) == Outcome(st, need, b)
    ensures Indexed(k, c + Negation(neg)) && Exec(fl, k, c + Negation(neg), st, row) == Outcome(st, need, b != neg)
  {
    if neg { ThenNot(fl, k, c, st, row, need, b); } else { assert c + [] == c; }
  }

  /** Two pushes and a binary operator. */
  lemma ThenBinary(fl: Floats, k: Pools, i: Instr, j: Instr, op: OpCode, st: seq<Value>, row: Row)
    requires InPool(k, i) && IsPush(i.op) && InPool(k, j) && IsPush(j.op) && IsBinary(op) && |st| <= STACK_MAX
    ensures Indexed(k, [i, j, Instr(op, 0)])
    ensures Exec(fl, k, [i, j, Instr(op, 0)], st, row) ==
            Outcome(st, 2, BinaryOp(fl, op, Load(k, i, row), Load(k, j, row)))
  {
    hide Exec, Step, BinaryOp, Load, IsPush, IsBinary;
    var v, w, o := Load(k, i, row), Load(k, j, row), Instr(op, 0);
    PushOne(fl, k, i, st, row);
    PushOne(fl, k, j, st + [v], row);
    StepBinary(fl, k, op, st, v, w, row);
    ExecOne(fl, k, o, st + [v] + [w], row);
    ExecConcat(fl, k, [i], [j], st, row);
    ExecConcat(fl, k, [i] + [j], [o], st, row);
    assert [i] + [j] + [o] == [i, j, o];
  }

  /** Three pushes and BETWEEN. */
  lemma ThenBetween(fl: Floats, k: Pools, i: Instr, j: Instr, m: Instr, st: seq<Value>, row: Row)
    requires InPool(k, i) && IsPush(i.op) && InPool(k, j) && IsPush(j.op)
    requires InPool(k, m) && IsPush(m.op) && |st| <= STACK_MAX
    ensures Indexed(k, [i, j, m, Instr(OpBetween, 0)])
    ensures Exec(fl, k, [i, j, m, Instr(OpBetween, 0)], st, row) ==
            Outcome(st, 3, BetweenOp(fl, Load(k, i, row), Load(k, j, row), Load(k, m, row)))
  {
    hide Exec, Step, BetweenOp, Load, IsPush, IsBinary;
    var x, lo, hi, o := Load(k, i, row), Load(k, j, row), Load(k, m, row), Instr(OpBetween, 0);
    PushOne(fl, k, i, st, row);
    PushOne(fl, k, j, st + [x], row);
    PushOne(fl, k, m, st + [x] + [lo], row);
    StepBetween(fl, k, st, x, lo, hi, row);
    ExecOne(fl, k, o, st + [x] + [lo] + [hi], row);
    ExecConcat(fl, k, [i], [j], st, row);
    ExecConcat(fl, k, [i] + [j], [m], st, row);
    ExecConcat(fl, k, [i] + [j] + [m], [o], st, row);
    assert [i] + [j] + [m] + [o] == [i, j, m, o];
  }

  // ---- the leaves ------------------------------------------------------------------------------------

  lemma LoadsField(k: Pools, k': Pools, f: string, row: Row)
    requires Extends(WithField(k, f), k')
    ensures InPool(k', LoadOf(k, f)) && Load(k', LoadOf(k, f), row) == Field(row, f)
  {
    var s := Slot(k.fields, f);
    assert s < |WithField(k, f).fields| && WithField(k, f).fields[s] == f;
    assert k'.fields[s] == f;
  }

  /** The value a literal pushes. */
  function Pushed(fl: Floats, v: Literal): Value {
    if v.Str? then StrV(v.text) else if fl.parse(v.text).Some? then NumV(fl.parse(v.text).value) else Undef
  }

  lemma LoadsLiteral(fl: Floats, v: Literal, k: Pools, k': Pools, row: Row)
    requires LowerVal(fl, v, k).Some? && Extends(LowerVal(fl, v, k).value.1, k')
    ensures var c := LowerVal(fl, v, k).value.0;
            |c| == 1 && InPool(k', c[0]) && IsPush(c[0].op) && Load(k', c[0], row) == Pushed(fl, v)
  {
  }

  lemma ComparesAs(fl: Floats, x: Value, op: string, v: Literal)
    requires CmpOp(op).Some? && (v.Num? ==> NumOf(fl, v).Some?)
    ensures IsBinary(CmpOp(op).value)
    ensures BinaryOp(fl, CmpOp(op).value, x, Pushed(fl, v)) == CompareHolds(fl, x, op, v)
  {
  }

  /** A lowered node runs to its meaning on the stack st, in any pools that extend its own. */
  ghost predicate Runs(fl: Floats, n: Node, k: Pools, k': Pools, st: seq<Value>, row: Row)
    requires Lower(fl, n, k).Some?
  {
    var c := Lower(fl, n, k).value.0;
    Indexed(k', c) && Exec(fl, k', c, st, row) == Outcome(st, Need(n), Holds(fl, n, row))
  }

  lemma ExtendsVal(fl: Floats, v: Literal, k: Pools, f: string, k': Pools)
    requires LowerVal(fl, v, WithField(k, f)).Some? && Extends(LowerVal(fl, v, WithField(k, f)).value.1, k')
    ensures Extends(WithField(k, f), k')
  {
    ValueGrows(fl, v, WithField(k, f));
    ExtendsTrans(WithField(k, f), LowerVal(fl, v, WithField(k, f)).value.1, k');
  }

  lemma RunCompare(fl: Floats, f: string, op: string, v: Literal, k: Pools, k': Pools, st: seq<Value>, row: Row)
    requires Lower(fl, Node.Compare(f, op, v), k).Some? && |st| <= STACK_MAX
    requires Extends(Lower(fl, Node.Compare(f, op, v), k).value.1, k')
    ensures Runs(fl, Node.Compare(f, op, v), k, k', st, row)
  {
    hide Exec, CompareHolds, BinaryOp, WithField, LoadOf, LowerVal, Extends, CmpOp, IsBinary, Load;
    var k1, i, o := WithField(k, f), LoadOf(k, f), CmpOp(op).value;
    var (c, k2) := LowerVal(fl, v, k1).value;
    ExtendsVal(fl, v, k, f, k');
    LoadsField(k, k', f, row);
    LoadsLiteral(fl, v, k1, k', row);
    LiteralParses(fl, v, k1);
    ComparesAs(fl, Field(row, f), op, v);
    IsLoad(k, f);
    ThenBinary(fl, k', i, c[0], o, st, row);
    assert [i] + c + [Instr(o, 0)] == [i, c[0], Instr(o, 0)];
  }

  lemma IsLoad(k: Pools, f: string)
    ensures IsPush(LoadOf(k, f).op)
  {
  }

  lemma LiteralParses(fl: Floats, v: Literal, k: Pools)
    requires LowerVal(fl, v, k).Some?
    ensures v.Num? ==> NumOf(fl, v).Some?
  {
  }

  lemma RunBetween(fl: Floats, f: string, lo: Literal, hi: Literal, k: Pools, k': Pools, st: seq<Value>, row: Row)
    requires Lower(fl, Node.Between(f, lo, hi), k).Some? && |st| <= STACK_MAX
    requires Extends(Lower(fl, Node.Between(f, lo, hi), k).value.1, k')
    ensures Runs(fl, Node.Between(f, lo, hi), k, k', st, row)
  {
    hide Exec, WithField, LoadOf, NumOf;
    var k1 := WithField(k, f);
    var m := |k1.nums|;
    var x, y := NumOf(fl, lo).value, NumOf(fl, hi).value;
    assert (k1.nums + [x, y])[m] == x && (k1.nums + [x, y])[m + 1] == y;
    LoadsField(k, k', f, row);
    IsLoad(k, f);
    ThenBetween(fl, k', LoadOf(k, f), Instr(ConstNum, m), Instr(ConstNum, m + 1), st, row);
  }

  lemma RunIn(fl: Floats, f: string, vs: seq<Literal>, neg: bool, k: Pools, k': Pools, st: seq<Value>, row: Row)
    requires Extends(Lower(fl, Node.In(f, vs, neg), k).value.1, k') && |st| <= STACK_MAX
    ensures Runs(fl, Node.In(f, vs, neg), k, k', st, row)
  {
    hide Exec, WithField, LoadOf;
    var m, x := |WithField(k, f).sets|, Field(row, f);
    var i, j := LoadOf(k, f), Instr(OpIn, m);
    LoadsField(k, k', f, row);
    IsLoad(k, f);
    assert k'.sets[m] == LitTextSet(vs);
    ThenUnary(fl, k', i, j, st, row);
    ThenNegation(fl, k', [i, j], st, row, 1, UnaryOp(fl, k', j, x), neg);
  }

  lemma LikesAs(fl: Floats, k: Pools, m: nat, p: string, x: Value)
    requires m < |k.strs| && k.strs[m] == LikeParts(p).1
    ensures var j := Instr(LikeCode(LikeParts(p).0), m);
            InPool(k, j) && UnaryOp(fl, k, j, x) == (!x.Undef? && LikeHolds(x.AsString(fl), p))
  {
    hide LikeParts, Contains, HasPrefix, HasSuffix;
  }

  lemma RunLike(fl: Floats, f: string, p: string, neg: bool, k: Pools, k': Pools, st: seq<Value>, row: Row)
    requires Extends(Lower(fl, Node.Like(f, p, neg), k).value.1, k') && |st| <= STACK_MAX
    ensures Runs(fl, Node.Like(f, p, neg), k, k', st, row)
  {
    hide Exec, WithField, LoadOf, LikeParts, LikeHolds, UnaryOp, InPool;
    var m, x := |WithField(k, f).strs|, Field(row, f);
    var i, j := LoadOf(k, f), Instr(LikeCode(LikeParts(p).0), m);
    LoadsField(k, k', f, row);
    IsLoad(k, f);
    assert k'.strs[m] == LikeParts(p).1;
    LikesAs(fl, k', m, p, x);
    ThenUnary(fl, k', i, j, st, row);
    ThenNegation(fl, k', [i, j], st, row, 1, UnaryOp(fl, k', j, x), neg);
  }

  lemma RunIsNull(fl: Floats, f: string, neg: bool, k: Pools, k': Pools, st: seq<Value>, row: Row)
    requires Extends(Lower(fl, Node.IsNull(f, neg), k).value.1, k') && |st| <= STACK_MAX
    ensures Runs(fl, Node.IsNull(f, neg), k, k', st, row)
  {
    hide Exec, WithField, LoadOf;
    LoadsField(k, k', f, row);
    IsLoad(k, f);
    ThenUnary(fl, k', LoadOf(k, f), Instr(if neg then OpIsNotNull else OpIsNull, 0), st, row);
  }

  // ---- chains ----------------------------------------------------------------------------------------

  predicate Combine(any: bool, a: bool, b: bool) { if any then a || b else a && b }

  /** One more operand: evaluated one slot higher, then combined with the accumulated boolean. */
  lemma ThenCombine(fl: Floats, k: Pools, c: seq<Instr>, op: OpCode, st: seq<Value>, acc: bool, row: Row,
                    need: nat, b: bool)
    requires Indexed(k, c) && op in {OpAnd, OpOr} && need > 0
    requires Exec(fl, k, c, st + [BoolV(acc)], row) == Outcome(st + [BoolV(acc)], need, b)
    ensures Indexed(k, c + [Instr(op, 0)])
    ensures Exec(fl, k, c + [Instr(op, 0)], st + [BoolV(acc)], row) ==
            Outcome(st, 1 + need, Combine(op == OpOr, acc, b))
  {
    hide Exec, Step;
    var i := Instr(op, 0);
    StepBinary(fl, k, op, st, BoolV(acc), BoolV(b), row);
    ExecOne(fl, k, i, st + [BoolV(acc)] + [BoolV(b)], row);
    ExecConcat(fl, k, c, [i], st + [BoolV(acc)], row);
  }

  predicate Fold(fl: Floats, any: bool, args: seq<Node>, row: Row) {
    if any then exists a :: a in args && Holds(fl, a, row)
    else forall a :: a in args ==> Holds(fl, a, row)
  }

  lemma FoldCons(fl: Floats, any: bool, args: seq<Node>, row: Row)
    requires args != []
    ensures Fold(fl, any, args, row) == Combine(any, Holds(fl, args[0], row), Fold(fl, any, args[1..], row))
  {
    hide Holds;
    assert args == [args[0]] + args[1..];
  }

  lemma {:induction false} NeedPositive(fl: Floats, n: Node)
    requires Compilable(fl, n)
    ensures Need(n) > 0
  {
    if n.Logic? { NeedPositive(fl, n.args[0]); }
    if n.Not? { NeedPositive(fl, n.arg); }
  }

  lemma {:induction false} RunNode(fl: Floats, n: Node, k: Pools, k': Pools, st: seq<Value>, row: Row)
    requires Lower(fl, n, k).Some? && Extends(Lower(fl, n, k).value.1, k') && |st| <= STACK_MAX
    ensures Runs(fl, n, k, k', st, row)
    decreases n, 1
  {
    match n
    case Logic(op, args) => RunLogic(fl, n, k, k', st, row);
    case Not(a) =>
      hide Exec;
      RunNode(fl, a, k, k', st, row);
      ThenNot(fl, k', Lower(fl, a, k).value.0, st, row, Need(a), Holds(fl, a, row));
    case _ =>
      hide Runs;
      RunLeaf(fl, n, k, k', st, row);
  }

  lemma RunLeaf(fl: Floats, n: Node, k: Pools, k': Pools, st: seq<Value>, row: Row)
    requires Lower(fl, n, k).Some? && Extends(Lower(fl, n, k).value.1, k') && |st| <= STACK_MAX
    requires !n.Logic? && !n.Not?
    ensures Runs(fl, n, k, k', st, row)
  {
    hide Runs, Extends, Lower;
    match n
    case Compare(f, op, v) => RunCompare(fl, f, op, v, k, k', st, row);
    case Between(f, lo, hi) => RunBetween(fl, f, lo, hi, k, k', st, row);
    case In(f, vs, neg) => RunIn(fl, f, vs, neg, k, k', st, row);
    case Like(f, p, neg) => RunLike(fl, f, p, neg, k, k', st, row);
    case IsNull(f, neg) => RunIsNull(fl, f, neg, k, k', st, row);
  }

  lemma {:induction false} RunLogic(fl: Floats, n: Node, k: Pools, k': Pools, st: seq<Value>, row: Row)
    requires n.Logic? && Lower(fl, n, k).Some? && Extends(Lower(fl, n, k).value.1, k') && |st| <= STACK_MAX
    ensures Runs(fl, n, k, k', st, row)
    decreases n, 0
  {
    hide Exec, Extends, Indexed;
    var args, op := n.args, if n.op == "OR" then OpOr else OpAnd;
    var (c, k1) := Lower(fl, args[0], k).value;
    var (d, k2) := LowerTail(fl, op, args[1..], k1).value;
    var a := Holds(fl, args[0], row);
    TailGrows(fl, op, args[1..], k1);
    ExtendsTrans(k1, k2, k');
    RunNode(fl, args[0], k, k', st, row);
    LowerSucceeds(fl, args[0], k);
    NeedPositive(fl, args[0]);
    FoldCons(fl, op == OpOr, args, row);
    IndexedGrows(k2, k', d);
    ExecConcat(fl, k', c, d, st, row);
    if |st| + Need(args[0]) <= STACK_MAX {
      RunTail(fl, op, args[1..], k1, k', st, a, row);
    }
  }

  /** The rest of a chain, started on the accumulated boolean. */
  lemma {:induction false} RunTail(fl: Floats, op: OpCode, args: seq<Node>, k: Pools, k': Pools, st: seq<Value>,
                                   acc: bool, row: Row)
    requires op in {OpAnd, OpOr} && LowerTail(fl, op, args, k).Some? && |st| < STACK_MAX
    requires Extends(LowerTail(fl, op, args, k).value.1, k')
    ensures Indexed(k', LowerTail(fl, op, args, k).value.0)
    ensures Exec(fl, k', LowerTail(fl, op, args, k).value.0, st + [BoolV(acc)], row) ==
            Outcome(st, Max(1, NeedTail(args)), Combine(op == OpOr, acc, Fold(fl, op == OpOr, args, row)))
    decreases args, 0
  {
    if args != [] {
      hide Exec, Extends, Indexed, Holds, Fold;
      var (c, k1) := Lower(fl, args[0], k).value;
      var (d, k2) := LowerTail(fl, op, args[1..], k1).value;
      var a, st1 := Holds(fl, args[0], row), st + [BoolV(acc)];
      TailGrows(fl, op, args[1..], k1);
      ExtendsTrans(k1, k2, k');
      IndexedGrows(k2, k', d);
      RunNode(fl, args[0], k, k', st1, row);
      LowerSucceeds(fl, args[0], k);
      NeedPositive(fl, args[0]);
      ThenCombine(fl, k', c, op, st, acc, row, Need(args[0]), a);
      FoldCons(fl, op == OpOr, args, row);
      ExecConcat(fl, k', c + [Instr(op, 0)], d, st1, row);
      RunTail(fl, op, args[1..], k1, k', st, Combine(op == OpOr, acc, a), row);
    }
  }

  // ---- the theorem ---------------------------------------------------------------------------------------

  /** Compile succeeds exactly on compilable trees; its program is the tree's meaning, or false past the stack. */
  lemma CompileCorrect(fl: Floats, n: Node, row: Row)
    ensures Compile(fl, n).Some? <==> Compilable(fl, n)
    ensures Compile(fl, n).Some? ==>
              var p := Compile(fl, n).value;
              && Indexed(p.pools, p.code)
              && Eval(fl, p, row) == (Need(n) <= STACK_MAX && Holds(fl, n, row))
  {
    LowerSucceeds(fl, n, NO_POOLS);
    if Compile(fl, n).Some? {
      LowerGrows(fl, n, NO_POOLS);
      RunNode(fl, n, NO_POOLS, Lower(fl, n, NO_POOLS).value.1, [], row);
    }
  }
}
