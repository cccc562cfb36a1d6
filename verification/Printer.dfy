/** IR back to SQL text (the SQL half of pkg/ir/emit.go). */
module Printer {
  import opened Prelude
  import opened Ir

  function SqlVal(v: Literal): string {
    if v.Str? then "'" + v.text + "'" else v.text
  }

  function SqlVals(vs: seq<Literal>): seq<string> {
    if vs == [] then [] else [SqlVal(vs[0])] + SqlVals(vs[1..])
  }

  function Sql(n: Node): string
    decreases n, 1
  {
    match n
    case Logic(op, args) => Join(SqlParts(args), " " + op + " ")
    case Compare(f, op, v) => f + " " + op + " " + SqlVal(v)
    case Between(f, lo, hi) => f + " BETWEEN " + SqlVal(lo) + " AND " + SqlVal(hi)
    case In(f, vs, neg) => f + (if neg then " NOT IN (" else " IN (") + Join(SqlVals(vs), ", ") + ")"
    case Like(f, p, neg) => f + (if neg then " NOT LIKE '" else " LIKE '") + p + "'"
    case IsNull(f, neg) => f + (if neg then " IS NOT NULL" else " IS NULL")
    case Not(a) => "NOT (" + Sql(a) + ")"
  }

  function SqlParts(args: seq<Node>): seq<string>
    decreases args, 0
  {
    if args == [] then [] else [WrapSql(args[0])] + SqlParts(args[1..])
  }

  function WrapSql(n: Node): string
    decreases n, 2
  {
    if n.Logic? then "(" + Sql(n) + ")" else Sql(n)
  }

  // ---- the printer as written: a parts slice filled in a loop ---------------------------

  lemma {:induction false} SqlPartsAt(args: seq<Node>, i: nat)
    requires i < |args|
    ensures |SqlParts(args)| == |args| && SqlParts(args)[i] == WrapSql(args[i])
  {
    if i > 0 { SqlPartsAt(args[1..], i - 1); }
    else if |args| > 1 { SqlPartsAt(args[1..], 0); }
  }

  lemma {:induction false} SqlValsAt(vs: seq<Literal>, i: nat)
    requires i < |vs|
    ensures |SqlVals(vs)| == |vs| && SqlVals(vs)[i] == SqlVal(vs[i])
  {
    if i > 0 { SqlValsAt(vs[1..], i - 1); }
    else if |vs| > 1 { SqlValsAt(vs[1..], 0); }
  }

  method EmitSql(n: Node) returns (s: string)
    ensures s == Sql(n)
    decreases n, 1
  {
    match n
    case Logic(op, args) =>
      var parts := new string[|args|](i => "");
      for i := 0 to |args|
        invariant forall k :: 0 <= k < i ==> parts[k] == WrapSql(args[k])
      {
        parts[i] := EmitWrapped(args[i]);
      }
      forall k | 0 <= k < |args| ensures |SqlParts(args)| == |args| && parts[k] == SqlParts(args)[k] {
        SqlPartsAt(args, k);
      }
      assert parts[..] == SqlParts(args);
      s := Join(parts[..], " " + op + " ");
    case Compare(f, op, v) => s := f + " " + op + " " + SqlVal(v);
    case Between(f, lo, hi) => s := f + " BETWEEN " + SqlVal(lo) + " AND " + SqlVal(hi);
    case In(f, vs, neg) =>
      var list := EmitValList(vs);
      s := f + (if neg then " NOT IN (" else " IN (") + list + ")";
    case Like(f, p, neg) => s := f + (if neg then " NOT LIKE '" else " LIKE '") + p + "'";
    case IsNull(f, neg) => s := f + (if neg then " IS NOT NULL" else " IS NULL");
    case Not(a) =>
      var inner := EmitSql(a);
      s := "NOT (" + inner + ")";
  }

  method EmitWrapped(n: Node) returns (s: string)
    ensures s == WrapSql(n)
    decreases n, 2
  {
    s := EmitSql(n);
    if n.Logic? { s := "(" + s + ")"; }
  }

  method EmitValList(vs: seq<Literal>) returns (s: string)
    ensures s == Join(SqlVals(vs), ", ")
  {
    var parts := new string[|vs|](i => "");
    for i := 0 to |vs|
      invariant forall k :: 0 <= k < i ==> parts[k] == SqlVal(vs[k])
    {
      parts[i] := SqlVal(vs[i]);
    }
    forall k | 0 <= k < |vs| ensures |SqlVals(vs)| == |vs| && parts[k] == SqlVals(vs)[k] {
      SqlValsAt(vs, k);
    }
    assert parts[..] == SqlVals(vs);
    s := Join(parts[..], ", ");
  }
}
