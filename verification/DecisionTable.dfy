/** Decision tables compiled to rules through SQL text (pkg/dtable/table.go). */
module DecisionTable {
  import opened Prelude
  import opened Ir
  import opened Lexer
  import opened Parser
  import opened Printer
  import opened RoundTrip
  import opened RoundTripExact
  import opened Vm
  import opened LikePatterns
  import opened Meaning
  import opened Cache
  import opened Pipeline

  /** A decoded JSON scalar, or anything else. */
  datatype Json = JString(s: string) | JFloat(x: F64) | JBool(b: bool) | JNumber(text: string) | JOther

  datatype Cond = Cond(field: string, op: string, value: Json, values: seq<Json>)
  datatype TableRow = TableRow(enabled: Option<bool>, name: string, when: seq<Cond>, priority: int)
  datatype Table = Table(name: string, rows: seq<TableRow>, idBase: int)

  // ---- what a table says -------------------------------------------------------------------------------

  const COMPARISONS := {"=", "==", "!=", ">", ">=", "<", "<="}

  /** The number a cell stands for. */
  function NumberOf(fl: Floats, v: Json): Option<F64> {
    match v
    case JFloat(x) => Some(x)
    case JNumber(t) => fl.parse(t)
    case _ => None
  }

  /** A cell as text: a float in canonical form, a number as it was written. */
  function Written(fl: Floats, v: Json): string {
    match v
    case JString(s) => s
    case JFloat(x) => fl.format(x)
    case JBool(b) => if b then "true" else "false"
    case JNumber(t) => t
    case JOther => ""
  }

  /** A cell as a comparison shows it: every number in canonical form. */
  function Canonical(fl: Floats, v: Json): string {
    match NumberOf(fl, v)
    case Some(x) => fl.format(x)
    case None => Written(fl, v)
  }

  /** Whether a condition holds of a row, in terms of its operator, its cells and the row's field. */
  predicate CondHolds(fl: Floats, c: Cond, row: Row) {
    var x := Field(row, c.field);
    if c.op in COMPARISONS then
      && !x.Undef?
      && if x.NumV? && NumberOf(fl, c.value).Some? then NumRel(fl, c.op, x.n, NumberOf(fl, c.value).value)
         else StrRel(c.op, x.AsString(fl), Canonical(fl, c.value))
    else match c.op
      case "between" =>
        && |c.values| == 2 && x.NumV?
        && NumberOf(fl, c.values[0]).Some? && fl.le(NumberOf(fl, c.values[0]).value, x.n)
        && NumberOf(fl, c.values[1]).Some? && fl.le(x.n, NumberOf(fl, c.values[1]).value)
      case "in" => !x.Undef? && exists v :: v in c.values && Written(fl, v) == x.AsString(fl)
      case "like" => c.value.JString? && !x.Undef? && LikeHolds(x.AsString(fl), c.value.s)
      case "isnull" => x.Undef?
      case "isnotnull" => !x.Undef?
      case _ => false
  }

  /** A known operator with as many scalar cells as it takes. */
  predicate Supported(c: Cond) {
    if c.op in COMPARISONS then c.value != JOther
    else match c.op
      case "between" => |c.values| == 2 && JOther !in c.values
      case "in" => JOther !in c.values
      case "like" => c.value.JString?
      case "isnull" | "isnotnull" => true
      case _ => false
  }

  /** A float that reads back from its printed form, as every float of a JSON document does. */
  predicate PrintsBack(fl: Floats, v: Json) { v.JFloat? ==> fl.parse(fl.format(v.x)) == Some(v.x) }

  predicate CellsPrintBack(fl: Floats, c: Cond) {
    PrintsBack(fl, c.value) && forall v :: v in c.values ==> PrintsBack(fl, v)
  }

  // ---- translation ----------------------------------------------------------------------------------------

  function ToVal(fl: Floats, v: Json): Option<Literal> {
    match v
    case JString(s) => Some(Str(s))
    case JFloat(x) => Some(Num(fl.format(x)))
    case JBool(b) => Some(Str(if b then "true" else "false"))
    case JNumber(t) => Some(Num(t))
    case JOther => None
  }

  function ToVals(fl: Floats, vs: seq<Json>): Option<seq<Literal>> {
    if vs == [] then Some([])
    else match (ToVal(fl, vs[0]), ToVals(fl, vs[1..]))
      case (Some(v), Some(rest)) => Some([v] + rest)
      case _ => None
  }

  function CondIr(fl: Floats, c: Cond): Option<Node> {
    if c.op in COMPARISONS then
      match ToVal(fl, c.value)
      case None => None
      case Some(v) => Some(Compare(c.field, if c.op == "==" then "=" else c.op, v))
    else if c.op == "between" then
      if |c.values| != 2 then None
      else match (ToVal(fl, c.values[0]), ToVal(fl, c.values[1]))
        case (Some(lo), Some(hi)) => Some(Between(c.field, lo, hi))
        case _ => None
    else if c.op == "in" then
      match ToVals(fl, c.values)
      case None => None
      case Some(vs) => Some(In(c.field, vs, false))
    else if c.op == "like" then (if c.value.JString? then Some(Like(c.field, c.value.s, false)) else None)
    else if c.op == "isnull" then Some(IsNull(c.field, false))
    else if c.op == "isnotnull" then Some(IsNull(c.field, true))
    else None
  }

  function CondsIr(fl: Floats, cs: seq<Cond>): Option<seq<Node>> {
    if cs == [] then Some([])
    else match (CondIr(fl, cs[0]), CondsIr(fl, cs[1..]))
      case (Some(n), Some(rest)) => Some([n] + rest)
      case _ => None
  }

  function RowIr(fl: Floats, r: TableRow): Option<Node> {
    if r.when == [] then None
    else match CondsIr(fl, r.when)
      case None => None
      case Some(args) => Some(if |args| == 1 then args[0] else Logic("AND", args))
  }

  /** The rule row i becomes. */
  function RowRule(fl: Floats, t: Table, i: nat): Option<Rule>
    requires i < |t.rows|
  {
    var r := t.rows[i];
    match RowIr(fl, r)
    case None => None
    case Some(n) => Some(Rule(t.idBase + i, r.name, Sql(n), r.priority, 0, r.enabled != Some(false)))
  }

  method ConvertVals(fl: Floats, vs: seq<Json>) returns (r: Option<seq<Literal>>)
    ensures r == ToVals(fl, vs)
  {
    var vals: seq<Literal> := [];
    assert vs[0..] == vs;
    ContinueNothing(ToVals(fl, vs));
    for i := 0 to |vs|
      invariant ToVals(fl, vs) == Continue(vals, ToVals(fl, vs[i..]))
    {
      assert vs[i..][0] == vs[i] && vs[i..][1..] == vs[i + 1..];
      var v := ToVal(fl, vs[i]);
      if v.None? { return None; }
      ContinueMore(vals, v.value, ToVals(fl, vs[i + 1..]));
      vals := vals + [v.value];
    }
    assert vs[|vs|..] == [] && vals + [] == vals;
    return Some(vals);
  }

  lemma {:induction false} ToValsMeans(fl: Floats, vs: seq<Json>)
    ensures ToVals(fl, vs).Some? <==> JOther !in vs
    ensures ToVals(fl, vs).Some? ==>
              && |ToVals(fl, vs).value| == |vs|
              && forall i :: 0 <= i < |vs| ==> ToVals(fl, vs).value[i].text == Written(fl, vs[i])
  {
    if vs != [] {
      assert vs == [vs[0]] + vs[1..];
      ToValsMeans(fl, vs[1..]);
    }
  }

  /** The list of an IN test holds a text exactly when a cell is written so. */
  lemma ListMeans(fl: Floats, vs: seq<Json>, text: string)
    requires ToVals(fl, vs).Some?
    ensures (exists v :: v in ToVals(fl, vs).value && v.text == text) <==> exists v :: v in vs && Written(fl, v) == text
  {
    ToValsMeans(fl, vs);
    var lits := ToVals(fl, vs).value;
    if v :| v in lits && v.text == text {
      var i :| 0 <= i < |lits| && lits[i] == v;
      assert vs[i] in vs;
    }
    if v :| v in vs && Written(fl, v) == text {
      var i :| 0 <= i < |vs| && vs[i] == v;
      assert lits[i] in lits;
    }
  }

  /** A condition translates exactly when it is supported, and then its tree holds of a row exactly when it does. */
  lemma CondMeans(fl: Floats, c: Cond, row: Row)
    ensures CondIr(fl, c).Some? <==> Supported(c)
    ensures CondIr(fl, c).Some? && CellsPrintBack(fl, c) ==>
              (Holds(fl, CondIr(fl, c).value, row) <==> CondHolds(fl, c, row))
  {
    hide LikeHolds, ToVals;
    if c.op == "in" {
      ToValsMeans(fl, c.values);
      if ToVals(fl, c.values).Some? { ListMeans(fl, c.values, Field(row, c.field).AsString(fl)); }
    } else if c.op == "between" && |c.values| == 2 {
      assert c.values[0] in c.values && c.values[1] in c.values;
    }
  }

  method ConvertCond(fl: Floats, c: Cond) returns (n: Option<Node>)
    ensures n == CondIr(fl, c)
    ensures n.Some? <==> Supported(c)
    ensures n.Some? && CellsPrintBack(fl, c) ==> forall row :: Holds(fl, n.value, row) <==> CondHolds(fl, c, row)
  {
    forall row ensures CondIr(fl, c).Some? <==> Supported(c)
      ensures CondIr(fl, c).Some? && CellsPrintBack(fl, c) ==>
                (Holds(fl, CondIr(fl, c).value, row) <==> CondHolds(fl, c, row)) {
      CondMeans(fl, c, row);
    }
    CondMeans(fl, c, map[]);
    hide ToVals, Holds, CondHolds, Supported, CellsPrintBack;
    match c.op
    case "=" | "==" | "!=" | ">" | ">=" | "<" | "<=" =>
      var v := ToVal(fl, c.value);
      if v.None? { return None; }
      var op := c.op;
      if op == "==" { op := "="; }
      return Some(Compare(c.field, op, v.value));
    case "between" =>
      if |c.values| != 2 { return None; }
      var lo := ToVal(fl, c.values[0]);
      if lo.None? { return None; }
      var hi := ToVal(fl, c.values[1]);
      if hi.None? { return None; }
      return Some(Between(c.field, lo.value, hi.value));
    case "in" =>
      var vals := ConvertVals(fl, c.values);
      if vals.None? { return None; }
      return Some(In(c.field, vals.value, false));
    case "like" =>
      if !c.value.JString? { return None; }
      return Some(Like(c.field, c.value.s, false));
    case "isnull" => return Some(IsNull(c.field, false));
    case "isnotnull" => return Some(IsNull(c.field, true));
    case _ => return None;
  }

  method ConvertRow(fl: Floats, r: TableRow) returns (n: Option<Node>)
    ensures n == RowIr(fl, r)
  {
    if |r.when| == 0 { return None; }
    var args: seq<Node> := [];
    assert r.when[0..] == r.when;
    ContinueNothing(CondsIr(fl, r.when));
    for i := 0 to |r.when|
      invariant CondsIr(fl, r.when) == Continue(args, CondsIr(fl, r.when[i..]))
    {
      assert r.when[i..][0] == r.when[i] && r.when[i..][1..] == r.when[i + 1..];
      var c := ConvertCond(fl, r.when[i]);
      if c.None? { return None; }
      ContinueMore(args, c.value, CondsIr(fl, r.when[i + 1..]));
      args := args + [c.value];
    }
    assert r.when[|r.when|..] == [] && args + [] == args;
    if |args| == 1 { return Some(args[0]); }
    return Some(Logic("AND", args));
  }

  ghost function Continue<T>(args: seq<T>, rest: Option<seq<T>>): Option<seq<T>> {
    if rest.Some? then Some(args + rest.value) else None
  }

  lemma ContinueNothing<T>(rest: Option<seq<T>>)
    ensures Continue([], rest) == rest
  {
    if rest.Some? { assert [] + rest.value == rest.value; }
  }

  lemma ContinueMore<T>(args: seq<T>, n: T, rest: Option<seq<T>>)
    ensures Continue(args, if rest.Some? then Some([n] + rest.value) else None) == Continue(args + [n], rest)
  {
    if rest.Some? { assert args + ([n] + rest.value) == args + [n] + rest.value; }
  }

  /** The rule of row i: the row's own data, numbered from the table's base, enabled unless switched off. */
  predicate Carries(fl: Floats, t: Table, i: nat, r: Rule)
    requires i < |t.rows|
  {
    var row := t.rows[i];
    && r.id == t.idBase + i && r.name == row.name && r.priority == row.priority && r.version == 0
    && (r.enabled <==> row.enabled != Some(false))
    && RowIr(fl, row).Some? && r.expr == Sql(RowIr(fl, row).value)
  }

  /** Fails on the first bad row; otherwise one rule per row, in order. */
  method Rules(fl: Floats, t: Table) returns (rules: Option<seq<Rule>>)
    ensures rules.Some? <==> forall i :: 0 <= i < |t.rows| ==> RowRule(fl, t, i).Some?
    ensures rules.Some? ==> |rules.value| == |t.rows|
    ensures rules.Some? ==> forall i :: 0 <= i < |t.rows| ==> RowRule(fl, t, i) == Some(rules.value[i])
    ensures rules.Some? ==> forall i :: 0 <= i < |t.rows| ==> Carries(fl, t, i, rules.value[i])
  {
    var out: seq<Rule> := [];
    for i := 0 to |t.rows|
      invariant |out| == i && forall k :: 0 <= k < i ==> RowRule(fl, t, k) == Some(out[k])
    {
      var n := ConvertRow(fl, t.rows[i]);
      if n.None? {
        assert RowRule(fl, t, i).None?;
        return None;
      }
      var text := EmitSql(n.value);
      var r := t.rows[i];
      out := out + [Rule(t.idBase + i, r.name, text, r.priority, 0, r.enabled.None? || r.enabled.value)];
    }
    rules := Some(out);
  }

  // ---- tables keep their meaning through text ---------------------------------------------------------

  /** Every condition of a row holds. */
  predicate AllHold(fl: Floats, cs: seq<Cond>, row: Row) {
    forall i :: 0 <= i < |cs| ==> CondHolds(fl, cs[i], row)
  }

  predicate RowPrintsBack(fl: Floats, r: TableRow) {
    forall i :: 0 <= i < |r.when| ==> CellsPrintBack(fl, r.when[i])
  }

  lemma {:induction false} CondsAt(fl: Floats, cs: seq<Cond>, i: nat)
    requires CondsIr(fl, cs).Some? && i < |cs|
    ensures |CondsIr(fl, cs).value| == |cs| && CondIr(fl, cs[i]) == Some(CondsIr(fl, cs).value[i])
  {
    hide CondIr;
    if i > 0 { CondsAt(fl, cs[1..], i - 1); }
    else if |cs| > 1 { CondsAt(fl, cs[1..], 0); }
  }

  /** A row translates exactly when it has conditions, all supported; its tree then means their conjunction. */
  lemma RowMeans(fl: Floats, r: TableRow, row: Row)
    ensures RowIr(fl, r).Some? <==> r.when != [] && forall i :: 0 <= i < |r.when| ==> Supported(r.when[i])
    ensures RowIr(fl, r).Some? && RowPrintsBack(fl, r) ==>
              (Holds(fl, RowIr(fl, r).value, row) <==> AllHold(fl, r.when, row))
  {
    hide CondIr, CondsIr, Supported, CondHolds, CellsPrintBack, Holds;
    CondsSupported(fl, r.when);
    if RowIr(fl, r).Some? && RowPrintsBack(fl, r) {
      var args := CondsIr(fl, r.when).value;
      CondsAt(fl, r.when, 0);
      forall i | 0 <= i < |r.when| ensures Holds(fl, args[i], row) <==> CondHolds(fl, r.when[i], row) {
        CondsAt(fl, r.when, i);
        CondMeans(fl, r.when[i], row);
      }
      ArgsHold(fl, args, row);
    }
  }

  lemma {:induction false} CondsSupported(fl: Floats, cs: seq<Cond>)
    ensures CondsIr(fl, cs).Some? <==> forall i :: 0 <= i < |cs| ==> Supported(cs[i])
  {
    hide CondIr, Supported;
    if cs != [] {
      CondMeans(fl, cs[0], map[]);
      CondsSupported(fl, cs[1..]);
      assert forall i :: 0 < i < |cs| ==> cs[i] == cs[1..][i - 1];
      assert forall i :: 0 <= i < |cs[1..]| ==> cs[1..][i] == cs[i + 1];
    }
  }

  lemma ArgsHold(fl: Floats, args: seq<Node>, row: Row)
    requires args != []
    ensures Holds(fl, if |args| == 1 then args[0] else Logic("AND", args), row) <==>
            forall i :: 0 <= i < |args| ==> Holds(fl, args[i], row)
  {
    if |args| > 1 && !Holds(fl, Logic("AND", args), row) {
      var a :| a in args && !Holds(fl, a, row);
      var i :| 0 <= i < |args| && args[i] == a;
    }
  }

  /** A row's rule text parses back to the row's tree exactly when the tree is clean. */
  lemma RowTextIff(cc: Classes, fl: Floats, t: Table, i: nat)
    requires cc.Sane() && i < |t.rows| && RowIr(fl, t.rows[i]).Some?
    ensures RowRule(fl, t, i).Some?
    ensures Parse(cc, RowRule(fl, t, i).value.expr) == RowIr(fl, t.rows[i]) <==> Clean(cc, RowIr(fl, t.rows[i]).value)
  {
    hide Parse, RowIr, Clean;
    RoundTripIff(cc, RowIr(fl, t.rows[i]).value);
  }

  /**
   * A row whose conditions build a clean tree: its rule text parses back to that tree, and the
   * compiled rule matches a user exactly when every condition, as the table states it, holds.
   */
  lemma TableFaithful(cc: Classes, fl: Floats, t: Table, i: nat, row: Row)
    requires cc.Sane() && i < |t.rows| && RowIr(fl, t.rows[i]).Some?
    requires Clean(cc, RowIr(fl, t.rows[i]).value)
    ensures RowRule(fl, t, i).Some?
    ensures var n, text := RowIr(fl, t.rows[i]).value, RowRule(fl, t, i).value.expr;
            && Parse(cc, text) == Some(n)
            && (CompileText(cc, fl, text).Some? <==> Compilable(fl, n))
            && (CompileText(cc, fl, text).Some? && Need(n) <= STACK_MAX && RowPrintsBack(fl, t.rows[i]) ==>
                  (EvalProgram(fl, row, CompileText(cc, fl, text).value) <==> AllHold(fl, t.rows[i].when, row)))
  {
    hide Parse, CompileText, EvalProgram, Holds, RowIr, Clean, AllHold, RowPrintsBack;
    var n := RowIr(fl, t.rows[i]).value;
    ParsePrinted(cc, n);
    CleanIsQuiet(cc, n);
    QuietRule(cc, Sql(n), n);
    RuleMeans(cc, fl, Sql(n), n, row);
    RowMeans(fl, t.rows[i], row);
  }

  lemma CleanIsQuiet(cc: Classes, n: Node)
    requires Clean(cc, n)
    ensures Quiet(n)
  {
  }
}
