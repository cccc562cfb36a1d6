/** IR to bytecode with constant pools (pkg/vm/compile.go). */
module Compiler {
  import opened Prelude
  import opened Ir
  import opened Vm
  import opened LikePatterns

  // ---- specification -------------------------------------------------------------------------
  // Lower gives the code appended for a node and the pools after it, or None on a compile error.

  type Lowered = Option<(seq<Instr>, Pools)>

  function CmpOp(op: string): Option<OpCode> {
    if op == "=" || op == "==" then Some(OpEq)
    else if op == "!=" then Some(OpNe)
    else if op == ">" then Some(OpGt)
    else if op == ">=" then Some(OpGe)
    else if op == "<" then Some(OpLt)
    else if op == "<=" then Some(OpLe)
    else None
  }

  /** The number a literal denotes; strings and unparsable text denote none. */
  function NumOf(fl: Floats, v: Literal): Option<F64> {
    if v.Str? then None else fl.parse(v.text)
  }

  function LikeCode(kind: LikeKind): OpCode {
    match kind
    case ByContains => LikeContains
    case ByPrefix => LikePrefix
    case BySuffix => LikeSuffix
    case ByEquals => LikeEq
  }

  function LitTextSet(vs: seq<Literal>): set<string> { set v | v in vs :: v.text }

  /** The pool slot of a field name: the existing one, or a new one at the end. */
  function Slot(fields: seq<string>, name: string): (i: nat)
    ensures i <= |fields| && (i < |fields| ==> fields[i] == name)
    ensures name !in fields ==> i == |fields|
  {
    if fields == [] || fields[0] == name then 0 else 1 + Slot(fields[1..], name)
  }

  function WithField(k: Pools, name: string): Pools {
    if Slot(k.fields, name) < |k.fields| then k else k.(fields := k.fields + [name])
  }

  function LoadOf(k: Pools, name: string): Instr { Instr(LoadField, Slot(k.fields, name)) }

  function LowerVal(fl: Floats, v: Literal, k: Pools): Lowered {
    if v.Str? then Some(([Instr(ConstStr, |k.strs|)], k.(strs := k.strs + [v.text])))
    else match fl.parse(v.text)
      case None => None
      case Some(x) => Some(([Instr(ConstNum, |k.nums|)], k.(nums := k.nums + [x])))
  }

  function Lower(fl: Floats, n: Node, k: Pools): Lowered
    decreases n, 1
  {
    match n
    case Logic(op, args) =>
      if args == [] then None else
      (match Lower(fl, args[0], k)
       case None => None
       case Some((c, k1)) =>
         match LowerTail(fl, if op == "OR" then OpOr else OpAnd, args[1..], k1)
         case None => None
         case Some((d, k2)) => Some((c + d, k2)))
    case Compare(f, op, v) =>
      (match LowerVal(fl, v, WithField(k, f))
       case None => None
       case Some((c, k1)) =>
         match CmpOp(op)
         case None => None
         case Some(o) => Some(([LoadOf(k, f)] + c + [Instr(o, 0)], k1)))
    case Between(f, lo, hi) =>
      var k1 := WithField(k, f);
      (match (NumOf(fl, lo), NumOf(fl, hi))
       case (Some(x), Some(y)) =>
         Some(([LoadOf(k, f), Instr(ConstNum, |k1.nums|), Instr(ConstNum, |k1.nums| + 1), Instr(OpBetween, 0)],
               k1.(nums := k1.nums + [x, y])))
       case _ => None)
    case In(f, vs, neg) =>
      var k1 := WithField(k, f);
      Some(([LoadOf(k, f), Instr(OpIn, |k1.sets|)] + Negation(neg), k1.(sets := k1.sets + [LitTextSet(vs)])))
    case Like(f, p, neg) =>
      var k1 := WithField(k, f);
      var (kind, core) := LikeParts(p);
      Some(([LoadOf(k, f), Instr(LikeCode(kind), |k1.strs|)] + Negation(neg), k1.(strs := k1.strs + [core])))
    case IsNull(f, neg) =>
      Some(([LoadOf(k, f), Instr(if neg then OpIsNotNull else OpIsNull, 0)], WithField(k, f)))
    case Not(a) =>
      match Lower(fl, a, k)
      case None => None
      case Some((c, k1)) => Some((c + [Instr(OpNot, 0)], k1))
  }

  function Negation(neg: bool): seq<Instr> { if neg then [Instr(OpNot, 0)] else [] }

  /** The operands after the first, each followed by the connective. */
  function LowerTail(fl: Floats, op: OpCode, args: seq<Node>, k: Pools): Lowered
    decreases args, 0
  {
    if args == [] then Some(([], k))
    else match Lower(fl, args[0], k)
      case None => None
      case Some((c, k1)) =>
        match LowerTail(fl, op, args[1..], k1)
        case None => None
        case Some((d, k2)) => Some((c + [Instr(op, 0)] + d, k2))
  }

  const NO_POOLS := Pools([], [], [], [])

  function Compile(fl: Floats, n: Node): Option<Program> {
    match Lower(fl, n, NO_POOLS)
    case None => None
    case Some((c, k)) => Some(Program(c, k))
  }

  // ---- the compiler object ---------------------------------------------------------------------

  lemma {:induction false} SlotIs(fields: seq<string>, i: nat)
    requires i < |fields| && forall j :: 0 <= j < i ==> fields[j] != fields[i]
    ensures Slot(fields, fields[i]) == i
  {
    if i > 0 {
      assert fields[1..][i - 1] == fields[i];
      SlotIs(fields[1..], i - 1);
    }
  }

  method ValStrs(vs: seq<Literal>) returns (vals: seq<string>)
    ensures |vals| == |vs| && forall j :: 0 <= j < |vs| ==> vals[j] == vs[j].text
    ensures (set v | v in vals) == LitTextSet(vs)
  {
    var a := new string[|vs|](j => "");
    for j := 0 to |vs|
      invariant forall m :: 0 <= m < j ==> a[m] == vs[m].text
    {
      a[j] := vs[j].text;
    }
    vals := a[..];
    forall s | s in LitTextSet(vs) ensures s in vals {
      var j :| 0 <= j < |vs| && vs[j].text == s;
      assert vals[j] == s;
    }
  }

  class CompilerState {
    const fl: Floats
    var code: seq<Instr>
    var nums: seq<F64>
    var strs: seq<string>
    var fields: seq<string>
    var sets: seq<set<string>>
    var fieldIdx: map<string, nat>

    /** fieldIdx is the inverse of the field pool. */
    ghost predicate Valid() reads this {
      && (forall name :: name in fieldIdx ==> fieldIdx[name] < |fields| && fields[fieldIdx[name]] == name)
      && (forall i :: 0 <= i < |fields| ==> fields[i] in fieldIdx && fieldIdx[fields[i]] == i)
    }

    function Pool(): Pools reads this { Pools(nums, strs, fields, sets) }

    /** Code and pools after appending what the specification says. */
    ghost predicate Appended(was: seq<Instr>, r: Lowered, ok: bool) reads this {
      Valid() && ok == r.Some? && (ok ==> code == was + r.value.0 && Pool() == r.value.1)
    }

    constructor (fl: Floats)
      ensures Valid() && code == [] && Pool() == NO_POOLS && this.fl == fl
    {
      this.fl := fl;
      code, nums, strs, fields, sets, fieldIdx := [], [], [], [], [], map[];
    }

    method Add(op: OpCode, a: nat)
      modifies this`code
      ensures code == old(code) + [Instr(op, a)]
    {
      code := code + [Instr(op, a)];
    }

    method FieldSlot(name: string) returns (i: nat)
      requires Valid()
      modifies this`fields, this`fieldIdx
      ensures Valid() && i == Slot(old(fields), name) && Pool() == WithField(old(Pool()), name)
    {
      if name in fieldIdx {
        i := fieldIdx[name];
        SlotIs(fields, i);
        return;
      }
      i := |fields|;
      fields := fields + [name];
      fieldIdx := fieldIdx[name := i];
    }

    method NumConst(f: F64) returns (i: nat)
      modifies this`nums
      ensures i == old(|nums|) && nums == old(nums) + [f]
    {
      i := |nums|;
      nums := nums + [f];
    }

    method StrConst(s: string) returns (i: nat)
      modifies this`strs
      ensures i == old(|strs|) && strs == old(strs) + [s]
    {
      i := |strs|;
      strs := strs + [s];
    }

    method SetConst(vals: seq<string>) returns (i: nat)
      modifies this`sets
      ensures i == old(|sets|) && sets == old(sets) + [set v | v in vals]
    {
      var m: set<string> := {};
      for j := 0 to |vals|
        invariant m == set v | v in vals[..j]
      {
        assert vals[..j + 1] == vals[..j] + [vals[j]];
        m := m + {vals[j]};
      }
      assert vals[..|vals|] == vals;
      i := |sets|;
      sets := sets + [m];
    }

    method PushVal(v: Literal) returns (ok: bool)
      requires Valid()
      modifies this`code, this`nums, this`strs
      ensures Appended(old(code), LowerVal(fl, v, old(Pool())), ok)
    {
      if v.Str? {
        var i := StrConst(v.text);
        Add(ConstStr, i);
        return true;
      }
      var f := fl.parse(v.text);
      if f.None? { return false; }
      var i := NumConst(f.value);
      Add(ConstNum, i);
      return true;
    }

    method Emit(n: Node) returns (ok: bool)
      requires Valid()
      modifies this
      ensures Appended(old(code), Lower(fl, n, old(Pool())), ok)
      decreases n, 1
    {
      match n
      case Logic(op, args) => ok := EmitLogic(n);
      case Not(a) =>
        ok := Emit(a);
        if ok { Add(OpNot, 0); }
      case Compare(f, op, v) => ok := EmitCompare(f, op, v);
      case Between(f, lo, hi) => ok := EmitBetween(f, lo, hi);
      case In(f, vs, neg) => EmitIn(f, vs, neg); ok := true;
      case Like(f, p, neg) => EmitLike(f, p, neg); ok := true;
      case IsNull(f, neg) =>
        var i := FieldSlot(f);
        Add(LoadField, i);
        Add(if neg then OpIsNotNull else OpIsNull, 0);
        assert code == old(code) + [LoadOf(old(Pool()), f), Instr(if neg then OpIsNotNull else OpIsNull, 0)];
        ok := true;
    }

    method EmitLogic(n: Node) returns (ok: bool)
      requires Valid() && n.Logic?
      modifies this
      ensures Appended(old(code), Lower(fl, n, old(Pool())), ok)
      decreases n, 0
    {
      hide Slot;
      var args := n.args;
      if |args| == 0 { return false; }
      ok := Emit(args[0]);
      if !ok { return; }
      var op := if n.op == "OR" then OpOr else OpAnd;
      ghost var c0, k0 := code, Pool();
      for j := 1 to |args|
        invariant Valid()
        invariant TailSoFar(fl, op, args[1..], k0, args[j..], Pool(), c0, code)
      {
        ghost var c1, k1 := code, Pool();
        assert args[j..][0] == args[j] && args[j..][1..] == args[j + 1..];
        ok := Emit(args[j]);
        if !ok { return; }
        Add(op, 0);
        TailMore(fl, op, args[1..], k0, args[j..], k1, c0, c1);
      }
      assert args[|args|..] == [];
      ghost var c := Lower(fl, args[0], old(Pool())).value.0;
      ghost var d := LowerTail(fl, op, args[1..], k0).value.0;
      assert old(code) + c + d == old(code) + (c + d);
      ok := true;
    }

    method EmitCompare(f: string, op: string, v: Literal) returns (ok: bool)
      requires Valid()
      modifies this
      ensures Appended(old(code), Lower(fl, Node.Compare(f, op, v), old(Pool())), ok)
    {
      hide Slot, WithField, LowerVal, CmpOp;
      var i := FieldSlot(f);
      Add(LoadField, i);
      ok := PushVal(v);
      if !ok { return; }
      var o := CmpOp(op);
      if o.None? { return false; }
      Add(o.value, 0);
      ghost var load, c := LoadOf(old(Pool()), f), LowerVal(fl, v, WithField(old(Pool()), f)).value.0;
      assert code == old(code) + ([load] + c + [Instr(o.value, 0)]);
    }

    method PushBounds(lo: F64, hi: F64)
      modifies this`code, this`nums
      ensures nums == old(nums) + [lo, hi]
      ensures var m := |old(nums)|;
              code == old(code) + [Instr(ConstNum, m), Instr(ConstNum, m + 1), Instr(OpBetween, 0)]
    {
      var i := NumConst(lo);
      Add(ConstNum, i);
      i := NumConst(hi);
      Add(ConstNum, i);
      Add(OpBetween, 0);
    }

    method EmitBetween(f: string, lo: Literal, hi: Literal) returns (ok: bool)
      requires Valid()
      modifies this
      ensures Appended(old(code), Lower(fl, Node.Between(f, lo, hi), old(Pool())), ok)
    {
      hide Slot, NumOf;
      var i := FieldSlot(f);
      Add(LoadField, i);
      var x := NumOf(fl, lo);
      if x.None? { return false; }
      var y := NumOf(fl, hi);
      if y.None? { return false; }
      PushBounds(x.value, y.value);
      ghost var m, load := |old(nums)|, LoadOf(old(Pool()), f);
      assert old(code) + [load] + [Instr(ConstNum, m), Instr(ConstNum, m + 1), Instr(OpBetween, 0)]
          == old(code) + [load, Instr(ConstNum, m), Instr(ConstNum, m + 1), Instr(OpBetween, 0)];
      ok := true;
    }

    method EmitIn(f: string, vs: seq<Literal>, neg: bool)
      requires Valid()
      modifies this
      ensures Appended(old(code), Lower(fl, Node.In(f, vs, neg), old(Pool())), true)
    {
      hide Slot, LitTextSet;
      var i := FieldSlot(f);
      Add(LoadField, i);
      var vals := ValStrs(vs);
      i := SetConst(vals);
      Add(OpIn, i);
      if neg { Add(OpNot, 0); }
      assert code == old(code) + ([LoadOf(old(Pool()), f), Instr(OpIn, |old(sets)|)] + Negation(neg));
    }

    method EmitLike(f: string, p: string, neg: bool)
      requires Valid()
      modifies this
      ensures Appended(old(code), Lower(fl, Node.Like(f, p, neg), old(Pool())), true)
    {
      hide Slot, LikeParts;
      var i := FieldSlot(f);
      Add(LoadField, i);
      var (kind, core) := LikeParts(p);
      i := StrConst(core);
      Add(LikeCode(kind), i);
      if neg { Add(OpNot, 0); }
      assert code == old(code) + ([LoadOf(old(Pool()), f), Instr(LikeCode(kind), |old(strs)|)] + Negation(neg));
    }
  }

  /** In the loop over a chain: what is left to lower extends the code to the whole chain's. */
  ghost predicate TailSoFar(fl: Floats, op: OpCode, all: seq<Node>, k0: Pools,
                            left: seq<Node>, k: Pools, c0: seq<Instr>, c: seq<Instr>) {
    var whole, rest := LowerTail(fl, op, all, k0), LowerTail(fl, op, left, k);
    whole.Some? == rest.Some? &&
    (whole.Some? ==> c0 + whole.value.0 == c + rest.value.0 && whole.value.1 == rest.value.1)
  }

  lemma TailMore(fl: Floats, op: OpCode, all: seq<Node>, k0: Pools, left: seq<Node>, k: Pools,
                 c0: seq<Instr>, c: seq<Instr>)
    requires TailSoFar(fl, op, all, k0, left, k, c0, c) && left != []
    requires Lower(fl, left[0], k).Some?
    ensures var (d, k') := Lower(fl, left[0], k).value;
            TailSoFar(fl, op, all, k0, left[1..], k', c0, c + d + [Instr(op, 0)])
  {
    var (d, k') := Lower(fl, left[0], k).value;
    var rest := LowerTail(fl, op, left[1..], k');
    if rest.Some? {
      assert c + (d + [Instr(op, 0)] + rest.value.0) == c + d + [Instr(op, 0)] + rest.value.0;
    }
  }

  method CompileNode(fl: Floats, n: Node) returns (p: Option<Program>)
    ensures p == Compile(fl, n)
  {
    var c := new CompilerState(fl);
    var ok := c.Emit(n);
    if !ok { return None; }
    assert Lower(fl, n, NO_POOLS).value == (c.code, c.Pool()) by {
      assert [] + Lower(fl, n, NO_POOLS).value.0 == Lower(fl, n, NO_POOLS).value.0;
    }
    p := Some(Program(c.code, c.Pool()));
  }
}
