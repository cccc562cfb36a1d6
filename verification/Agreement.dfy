/** Where the tree walker and the bytecode agree, and exactly where they do not. */
module Agreement {
  import opened Prelude
  import opened Ir
  import opened Vm
  import opened LikePatterns
  import opened LikeExact
  import opened Compiler
  import opened Meaning
  import opened CompilerCorrect
  import opened Walker

  /** The two LIKE implementations are the same test, for every pattern. */
  lemma LikesAgree(s: string, p: string)
    ensures WalkLike(s, p) == LikeHolds(s, p)
  {
    if !HasPrefix(p, "%") && !HasSuffix(p, "%") {
      var a, b := Split(p);
      assert Percents(0) + Trim(p) + Percents(0) == Trim(p);
    }
  }

  // ---- one predicate ---------------------------------------------------------------------------------

  /**
   * The condition, on the row and the literal, under which the two evaluators agree on a predicate:
   * a field that holds no scalar must not satisfy the test as if it were the empty string, `==` must
   * not hold (the walker does not know it), a number literal compared as text must order like its
   * canonical form, and IS NULL must not meet a value of some other type.
   */
  predicate LeafAgrees(fl: Floats, n: Node, row: Row)
    requires !n.Logic? && !n.Not?
  {
    var x := Field(row, n.field);
    match n
    case Compare(_, op, v) =>
      if x.Undef? then !WalkStrRel(op, "", v.text)
      else if op == "==" then !Eq(fl, x, Pushed(fl, v))
      else v.Num? && !x.NumV? ==> StrRel(op, x.AsString(fl), v.text) == StrRel(op, x.AsString(fl), Shown(fl, v))
    case Between(_, _, _) => true
    case In(_, vs, _) => x.Undef? ==> forall v :: v in vs ==> v.text != ""
    case Like(_, p, _) => x.Undef? ==> !LikeHolds("", p)
    case IsNull(f, _) => f in row ==> row[f] != Other
  }

  lemma CompareAgreement(fl: Floats, f: string, op: string, v: Literal, row: Row)
    requires Compilable(fl, Node.Compare(f, op, v))
    ensures Walk(fl, Node.Compare(f, op, v), row) == Holds(fl, Node.Compare(f, op, v), row)
            <==> LeafAgrees(fl, Node.Compare(f, op, v), row)
  {
  }

  /** The walker and the compiled meaning agree on a predicate exactly under that condition. */
  lemma LeafAgreement(fl: Floats, n: Node, row: Row)
    requires !n.Logic? && !n.Not? && Compilable(fl, n)
    ensures Walk(fl, n, row) == Holds(fl, n, row) <==> LeafAgrees(fl, n, row)
  {
    hide LikeHolds, WalkLike;
    match n
    case Compare(f, op, v) => CompareAgreement(fl, f, op, v, row);
    case Like(f, p, neg) =>
      LikesAgree(RawString(fl, Raw(row, f)), p);
    case _ =>
  }

  // ---- one predicate, over all rows --------------------------------------------------------------------

  lemma {:induction false} LessNotEqual(s: string, t: string)
    ensures !StrLess(s, s)
    ensures s != t ==> StrLess(s, t) != StrLess(t, s)
  {
    if s != "" { LessNotEqual(s[1..], if t == "" then "" else t[1..]); }
    if s != "" && t != "" && s[0] == t[0] { assert s == [s[0]] + s[1..] && t == [t[0]] + t[1..]; }
  }

  /** Agreement on every row in which the field holds a scalar. */
  ghost predicate AgreesOnScalars(fl: Floats, n: Node)
    requires !n.Logic? && !n.Not?
  {
    forall row :: !Field(row, n.field).Undef? ==> Walk(fl, n, row) == Holds(fl, n, row)
  }

  /** Agreement on every row in which the field is absent or nil. */
  ghost predicate AgreesOnNulls(fl: Floats, n: Node)
    requires !n.Logic? && !n.Not?
  {
    forall row :: Raw(row, n.field) == Nil ==> Walk(fl, n, row) == Holds(fl, n, row)
  }

  /** What a rule author can check: not `==`, and a number in the form the machine prints it. */
  predicate Portable(fl: Floats, n: Node) {
    n.Compare? ==> n.op != "==" && Shown(fl, n.val) == n.val.text
  }

  /** Whether the empty text stands in the relation to a literal, by the literal's emptiness alone. */
  predicate EmptyRelates(op: string, text: string) {
    match op
    case "=" | ">=" => text == ""
    case "!=" | "<" => text != ""
    case "<=" => true
    case _ => false
  }

  /** The positive predicate fails of the empty string. */
  predicate RejectsEmpty(n: Node) {
    match n
    case Compare(_, op, v) => !EmptyRelates(op, v.text)
    case In(_, vs, _) => forall v :: v in vs ==> v.text != ""
    case Like(_, p, _) => Trim(p) != ""
    case _ => true
  }

  /** A text on which a comparison tells two different literals apart. */
  lemma Separates(op: string, t: string, u: string)
    requires t != u && op in {"=", "!=", ">", ">=", "<", "<="}
    ensures StrRel(op, t, t) != StrRel(op, t, u) || StrRel(op, u, t) != StrRel(op, u, u)
  {
    LessNotEqual(t, u);
    LessNotEqual(u, t);
  }

  lemma ScalarRow(f: string, s: string)
    ensures var row: Row := map[f := Text(s)]; Field(row, f) == StrV(s) && Raw(row, f) == Text(s)
  {
  }

  lemma CompareOnScalars(fl: Floats, f: string, op: string, v: Literal)
    requires Compilable(fl, Node.Compare(f, op, v))
    ensures AgreesOnScalars(fl, Node.Compare(f, op, v)) <==> Portable(fl, Node.Compare(f, op, v))
  {
    var n := Node.Compare(f, op, v);
    var shown := Shown(fl, v);
    if Portable(fl, n) {
      forall row | !Field(row, f).Undef? ensures Walk(fl, n, row) == Holds(fl, n, row) {
        CompareAgreement(fl, f, op, v, row);
      }
    } else {
      var t, u: Row := map[f := Text(v.text)], map[f := Text(shown)];
      ScalarRow(f, v.text);
      ScalarRow(f, shown);
      CompareAgreement(fl, f, op, v, t);
      CompareAgreement(fl, f, op, v, u);
      if op == "==" {
        assert Walk(fl, n, u) != Holds(fl, n, u);
      } else {
        Separates(op, v.text, shown);
        assert Walk(fl, n, t) != Holds(fl, n, t) || Walk(fl, n, u) != Holds(fl, n, u);
      }
    }
  }

  lemma LikeOfEmpty(p: string)
    ensures LikeHolds("", p) <==> Trim(p) == ""
  {
    if Trim(p) == "" { assert HasPrefix(""[0..], Trim(p)); }
  }

  lemma EmptyRelation(op: string, text: string)
    ensures WalkStrRel(op, "", text) == EmptyRelates(op, text)
  {
  }

  /** On scalars the two evaluators agree exactly on portable predicates. */
  lemma ScalarAgreement(fl: Floats, n: Node)
    requires !n.Logic? && !n.Not? && Compilable(fl, n)
    ensures AgreesOnScalars(fl, n) <==> Portable(fl, n)
  {
    hide LikeHolds, WalkLike, Walk, Holds, LeafAgrees;
    if n.Compare? {
      CompareOnScalars(fl, n.field, n.op, n.val);
    } else {
      forall row | !Field(row, n.field).Undef? ensures Walk(fl, n, row) == Holds(fl, n, row) {
        LeafAgreement(fl, n, row);
        ScalarLeaf(fl, n, row);
      }
    }
  }

  lemma ScalarLeaf(fl: Floats, n: Node, row: Row)
    requires !n.Logic? && !n.Not? && !n.Compare? && !Field(row, n.field).Undef?
    ensures LeafAgrees(fl, n, row)
  {
  }

  lemma NullLeaf(fl: Floats, n: Node, row: Row)
    requires !n.Logic? && !n.Not? && Raw(row, n.field) == Nil
    ensures LeafAgrees(fl, n, row) <==> RejectsEmpty(n)
  {
    hide LikeHolds;
    match n
    case Compare(_, op, v) => EmptyRelation(op, v.text);
    case Like(_, p, _) => LikeOfEmpty(p);
    case _ =>
  }

  /** On absent and nil fields they agree exactly where the positive predicate fails of the empty string. */
  lemma NullAgreement(fl: Floats, n: Node)
    requires !n.Logic? && !n.Not? && Compilable(fl, n)
    ensures AgreesOnNulls(fl, n) <==> RejectsEmpty(n)
  {
    hide Walk, Holds, LeafAgrees, RejectsEmpty;
    forall row | Raw(row, n.field) == Nil
      ensures Walk(fl, n, row) == Holds(fl, n, row) <==> RejectsEmpty(n) {
      LeafAgreement(fl, n, row);
      NullLeaf(fl, n, row);
    }
    assert Raw(map[], n.field) == Nil;
  }

  ghost predicate AgreesOnAll(fl: Floats, n: Node) { forall row :: Walk(fl, n, row) == Holds(fl, n, row) }

  /** On every row whatever: both conditions, and no IS NULL, which a value of another type tells apart. */
  lemma AlwaysAgree(fl: Floats, n: Node)
    requires !n.Logic? && !n.Not? && Compilable(fl, n)
    ensures AgreesOnAll(fl, n) <==> Portable(fl, n) && RejectsEmpty(n) && !n.IsNull?
  {
    hide Walk, Holds, LeafAgrees, RejectsEmpty, Portable;
    ScalarAgreement(fl, n);
    NullAgreement(fl, n);
    var odd: Row := map[n.field := Other];
    LeafAgreement(fl, n, odd);
    OddLeaf(fl, n, odd);
    if AgreesOnAll(fl, n) {
      assert AgreesOnScalars(fl, n) && AgreesOnNulls(fl, n);
      assert Walk(fl, n, odd) == Holds(fl, n, odd);
    } else if Portable(fl, n) && RejectsEmpty(n) && !n.IsNull? {
      var row :| Walk(fl, n, row) != Holds(fl, n, row);
      LeafAgreement(fl, n, row);
      OddLeaf(fl, n, row);
    }
  }

  lemma OddLeaf(fl: Floats, n: Node, row: Row)
    requires !n.Logic? && !n.Not? && n.field in row && row[n.field] == Other
    ensures LeafAgrees(fl, n, row) <==> RejectsEmpty(n) && !n.IsNull?
  {
    hide LikeHolds;
    match n
    case Compare(_, op, v) => EmptyRelation(op, v.text);
    case Like(_, p, _) => LikeOfEmpty(p);
    case _ =>
  }

  /** On a missing field the walker accepts `A != 'x'` and the machine does not. */
  lemma MissingFieldDiffers(fl: Floats)
    ensures var n := Node.Compare("A", "!=", Str("x"));
            Compilable(fl, n) && Walk(fl, n, map[]) && !Holds(fl, n, map[])
  {
  }

  // ---- whole trees ---------------------------------------------------------------------------------------

  predicate LeavesAgree(fl: Floats, n: Node, row: Row) {
    match n
    case Logic(_, args) => forall a :: a in args ==> LeavesAgree(fl, a, row)
    case Not(a) => LeavesAgree(fl, a, row)
    case _ => LeafAgrees(fl, n, row)
  }

  lemma {:induction false} TreesAgree(fl: Floats, n: Node, row: Row)
    requires Compilable(fl, n) && LeavesAgree(fl, n, row)
    ensures Walk(fl, n, row) == Holds(fl, n, row)
  {
    match n
    case Logic(op, args) =>
      forall a | a in args ensures Walk(fl, a, row) == Holds(fl, a, row) { TreesAgree(fl, a, row); }
      ByMembership(fl, n, row);
    case Not(a) => TreesAgree(fl, a, row);
    case _ => LeafAgreement(fl, n, row);
  }

  /** The walker's indexed loops as statements about membership. */
  lemma ByMembership(fl: Floats, n: Node, row: Row)
    requires n.Logic?
    ensures Walk(fl, n, row) ==
            if n.op == "OR" then exists a :: a in n.args && Walk(fl, a, row)
            else forall a :: a in n.args ==> Walk(fl, a, row)
  {
    if n.op == "OR" && Walk(fl, n, row) {
      var i :| 0 <= i < |n.args| && Walk(fl, n.args[i], row);
      assert n.args[i] in n.args;
    }
    if n.op != "OR" && !Walk(fl, n, row) {
      var i :| 0 <= i < |n.args| && !Walk(fl, n.args[i], row);
      assert n.args[i] in n.args;
    }
  }

  /** Every predicate is portable and, where its field holds no scalar, rejects the empty string. */
  predicate Ordinary(fl: Floats, n: Node, row: Row) {
    match n
    case Logic(_, args) => forall a :: a in args ==> Ordinary(fl, a, row)
    case Not(a) => Ordinary(fl, a, row)
    case _ =>
      && Portable(fl, n)
      && (Field(row, n.field).Undef? ==> RejectsEmpty(n) && (n.IsNull? ==> Raw(row, n.field) == Nil))
  }

  lemma {:induction false} OrdinaryAgrees(fl: Floats, n: Node, row: Row)
    requires Ordinary(fl, n, row)
    ensures LeavesAgree(fl, n, row)
  {
    hide LikeHolds;
    match n
    case Logic(_, args) => forall a | a in args ensures LeavesAgree(fl, a, row) { OrdinaryAgrees(fl, a, row); }
    case Not(a) => OrdinaryAgrees(fl, a, row);
    case Compare(_, op, v) => EmptyRelation(op, v.text);
    case Like(_, p, _) => LikeOfEmpty(p);
    case _ =>
  }

  /** The tree walker and the virtual machine give the same answer where the predicates do, within the stack. */
  lemma EvaluatorsAgree(fl: Floats, n: Node, row: Row)
    requires Compilable(fl, n) && Need(n) <= STACK_MAX && LeavesAgree(fl, n, row)
    ensures Compile(fl, n).Some?
    ensures var p := Compile(fl, n).value; Indexed(p.pools, p.code) && Eval(fl, p, row) == Walk(fl, n, row)
  {
    hide Compile, Eval;
    CompileCorrect(fl, n, row);
    TreesAgree(fl, n, row);
  }
}
