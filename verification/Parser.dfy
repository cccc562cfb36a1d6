/** Tokens to IR by recursive descent (pkg/ir/parser.go). */
module Parser {
  import opened Prelude
  import opened Ir
  import opened Lexer

  // ---- specification ------------------------------------------------------------------
  // Every parse function takes the token list and a cursor, and returns the value parsed
  // together with the new cursor, or None on a syntax error.

  function Cur(ts: seq<Token>, i: nat): Token {
    if i >= |ts| then EOF else ts[i]
  }

  /** The two chaining levels: parseOr and parseAnd. */
  datatype Level = Ors | Ands {
    function Token(): Token { if Ors? then KwOr else KwAnd }
    function Name(): string { if Ors? then "OR" else "AND" }
  }

  function PValue(ts: seq<Token>, i: nat): (r: Option<(Literal, nat)>)
    requires i <= |ts|
    ensures r.Some? ==> r.value.1 == i + 1 <= |ts|
  {
    match Cur(ts, i)
    case Number(text) => Some((Num(text), i + 1))
    case Quoted(text) => Some((Str(text), i + 1))
    case _ => None
  }

  /** The values of an IN list, from a position where a value must stand. */
  function PValues(ts: seq<Token>, i: nat, acc: seq<Literal>): (r: Option<(seq<Literal>, nat)>)
    requires i <= |ts|
    ensures r.Some? ==> i < r.value.1 <= |ts|
    decreases |ts| - i
  {
    match PValue(ts, i)
    case None => None
    case Some((v, j)) =>
      if Cur(ts, j) == Comma then PValues(ts, j + 1, acc + [v]) else Some((acc + [v], j))
  }

  /** After BETWEEN: two values with AND between them. */
  function PBetween(ts: seq<Token>, i: nat, field: string): (r: Option<(Node, nat)>)
    requires i <= |ts|
    ensures r.Some? ==> i < r.value.1 <= |ts|
  {
    match PValue(ts, i)
    case None => None
    case Some((lo, j)) =>
      if Cur(ts, j) != KwAnd then None else
      match PValue(ts, j + 1)
      case None => None
      case Some((hi, k)) => Some((Between(field, lo, hi), k))
  }

  /** After IN: a parenthesised value list. */
  function PIn(ts: seq<Token>, i: nat, field: string, negate: bool): (r: Option<(Node, nat)>)
    requires i <= |ts|
    ensures r.Some? ==> i < r.value.1 <= |ts|
  {
    if Cur(ts, i) != LParen then None else
    match PValues(ts, i + 1, [])
    case None => None
    case Some((vals, j)) =>
      if Cur(ts, j) != RParen then None else Some((In(field, vals, negate), j + 1))
  }

  /** After IS: NULL or NOT NULL. */
  function PIs(ts: seq<Token>, i: nat, field: string): (r: Option<(Node, nat)>)
    requires i <= |ts|
    ensures r.Some? ==> i < r.value.1 <= |ts|
  {
    var isNot := Cur(ts, i) == KwNot;
    var j := if isNot then i + 1 else i;
    if Cur(ts, j) != KwNull then None else Some((IsNull(field, isNot), j + 1))
  }

  /** The test of a predicate, once the field (and a NOT before IN or LIKE) is read. */
  function PTest(ts: seq<Token>, i: nat, field: string, negate: bool): (r: Option<(Node, nat)>)
    requires i <= |ts|
    ensures r.Some? ==> i < r.value.1 <= |ts|
  {
    match Cur(ts, i)
    case Op(op) =>
      (match PValue(ts, i + 1)
       case None => None
       case Some((v, j)) => Some((Compare(field, op, v), j)))
    case KwBetween => PBetween(ts, i + 1, field)
    case KwIn => PIn(ts, i + 1, field, negate)
    case KwLike =>
      if !Cur(ts, i + 1).Quoted? then None else Some((Like(field, ts[i + 1].text, negate), i + 2))
    case KwIs => PIs(ts, i + 1, field)
    case _ => None
  }

  function PPredicate(ts: seq<Token>, i: nat): (r: Option<(Node, nat)>)
    requires i <= |ts|
    ensures r.Some? ==> i < r.value.1 <= |ts|
  {
    if !Cur(ts, i).Ident? then None
    else if Cur(ts, i + 1) != KwNot then PTest(ts, i + 1, ts[i].text, false)
    else if Cur(ts, i + 2) !in {KwIn, KwLike} then None
    else PTest(ts, i + 2, ts[i].text, true)
  }

  function PUnary(ts: seq<Token>, i: nat): (r: Option<(Node, nat)>)
    requires i <= |ts|
    ensures r.Some? ==> i < r.value.1 <= |ts|
    decreases |ts| - i, 0
  {
    if Cur(ts, i) == KwNot then
      match PUnary(ts, i + 1)
      case None => None
      case Some((arg, j)) => Some((Not(arg), j))
    else if Cur(ts, i) == LParen then
      match PLevel(Ors, ts, i + 1)
      case None => None
      case Some((n, j)) => if Cur(ts, j) != RParen then None else Some((n, j + 1))
    else PPredicate(ts, i)
  }

  /** One operand of a chain: parseAnd under parseOr, parseUnary under parseAnd. */
  function POperand(lv: Level, ts: seq<Token>, i: nat): (r: Option<(Node, nat)>)
    requires i <= |ts|
    ensures r.Some? ==> i < r.value.1 <= |ts|
    decreases |ts| - i, if lv.Ors? then 3 else 1
  {
    if lv.Ors? then PLevel(Ands, ts, i) else PUnary(ts, i)
  }

  function PLevel(lv: Level, ts: seq<Token>, i: nat): (r: Option<(Node, nat)>)
    requires i <= |ts|
    ensures r.Some? ==> i < r.value.1 <= |ts|
    decreases |ts| - i, if lv.Ors? then 4 else 2
  {
    match POperand(lv, ts, i)
    case None => None
    case Some((left, j)) =>
      if Cur(ts, j) != lv.Token() then Some((left, j)) else PTail(lv, ts, j, [left])
  }

  /** The rest of a chain whose operands so far are acc. */
  function PTail(lv: Level, ts: seq<Token>, i: nat, acc: seq<Node>): (r: Option<(Node, nat)>)
    requires i <= |ts|
    ensures r.Some? ==> i <= r.value.1 <= |ts|
    decreases |ts| - i, 0
  {
    if Cur(ts, i) != lv.Token() then Some((Logic(lv.Name(), acc), i))
    else
      match POperand(lv, ts, i + 1)
      case None => None
      case Some((right, j)) => PTail(lv, ts, j, acc + [right])
  }

  function Parse(cc: Classes, s: string): Option<Node> {
    match Lex(cc, s)
    case None => None
    case Some(ts) =>
      match PLevel(Ors, ts, 0)
      case None => None
      case Some((n, j)) => if Cur(ts, j) != EOF then None else Some(n)
  }

  // ---- the parser object --------------------------------------------------------------

  class ParserState {
    const toks: seq<Token>
    var i: nat

    ghost predicate Valid() reads this { i <= |toks| }

    constructor (toks: seq<Token>)
      ensures Valid() && i == 0 && this.toks == toks
    {
      this.toks := toks;
      i := 0;
    }

    /** The outcome r of a specification function, as this object shows it. */
    ghost predicate Landed<T>(r: Option<(T, nat)>, out: Option<T>) reads this {
      && Valid()
      && (r.None? ==> out == None)
      && (r.Some? ==> out == Some(r.value.0) && i == r.value.1)
    }

    function Current(): (t: Token)
      reads this
      ensures t == Cur(toks, i)
    {
      if i >= |toks| then EOF else toks[i]
    }

    method Advance() returns (t: Token)
      modifies this`i
      ensures i == old(i) + 1 && t == Cur(toks, old(i))
      ensures t != EOF ==> Valid()
    {
      t := Current();
      i := i + 1;
    }

    /** Consumes a token of the wanted kind; the kinds expected carry no text. */
    method Expect(k: Token) returns (ok: bool)
      modifies this`i
      ensures ok == (Cur(toks, old(i)) == k)
      ensures i == if ok then old(i) + 1 else old(i)
      ensures old(Valid()) && k != EOF ==> Valid()
    {
      ok := Current() == k;
      if ok { var _ := Advance(); }
    }

    method ParseValue() returns (v: Option<Literal>)
      requires Valid()
      modifies this`i
      ensures Landed(PValue(toks, old(i)), v)
    {
      match Current()
      case Number(text) => var _ := Advance(); v := Some(Num(text));
      case Quoted(text) => var _ := Advance(); v := Some(Str(text));
      case _ => v := None;
    }

    method ParseInList() returns (r: Option<seq<Literal>>)
      requires Valid()
      modifies this`i
      ensures Landed(PValues(toks, old(i), []), r)
    {
      var vals: seq<Literal> := [];
      while true
        invariant Valid()
        invariant PValues(toks, old(i), []) == PValues(toks, i, vals)
        decreases |toks| - i
      {
        var v := ParseValue();
        if v.None? { return None; }
        vals := vals + [v.value];
        if Current() != Comma { return Some(vals); }
        var _ := Advance();
      }
    }

    method ParsePredicate() returns (n: Option<Node>)
      requires Valid()
      modifies this`i
      ensures Landed(PPredicate(toks, old(i)), n)
    {
      if !Current().Ident? { return None; }
      var id := Advance();
      var negate := false;
      if Current() == KwNot {
        var _ := Advance();
        negate := true;
        if Current() != KwIn && Current() != KwLike { return None; }
      }
      n := ParseTest(id.text, negate);
    }

    method ParseTest(field: string, negate: bool) returns (n: Option<Node>)
      requires Valid()
      modifies this`i
      ensures Landed(PTest(toks, old(i), field, negate), n)
    {
      match Current()
      case Op(op) =>
        var _ := Advance();
        var v := ParseValue();
        if v.None? { return None; }
        n := Some(Compare(field, op, v.value));
      case KwBetween =>
        var _ := Advance();
        n := ParseBetween(field);
      case KwIn =>
        var _ := Advance();
        n := ParseIn(field, negate);
      case KwLike =>
        var _ := Advance();
        if !Current().Quoted? { return None; }
        var s := Advance();
        n := Some(Like(field, s.text, negate));
      case KwIs =>
        var _ := Advance();
        n := ParseIs(field);
      case _ =>
        n := None;
    }

    method ParseBetween(field: string) returns (n: Option<Node>)
      requires Valid()
      modifies this`i
      ensures Landed(PBetween(toks, old(i), field), n)
    {
      var lo := ParseValue();
      if lo.None? { return None; }
      var ok := Expect(KwAnd);
      if !ok { return None; }
      var hi := ParseValue();
      if hi.None? { return None; }
      n := Some(Between(field, lo.value, hi.value));
    }

    method ParseIn(field: string, negate: bool) returns (n: Option<Node>)
      requires Valid()
      modifies this`i
      ensures Landed(PIn(toks, old(i), field, negate), n)
    {
      var ok := Expect(LParen);
      if !ok { return None; }
      var vals := ParseInList();
      if vals.None? { return None; }
      ok := Expect(RParen);
      if !ok { return None; }
      n := Some(In(field, vals.value, negate));
    }

    method ParseIs(field: string) returns (n: Option<Node>)
      requires Valid()
      modifies this`i
      ensures Landed(PIs(toks, old(i), field), n)
    {
      var isNot := Current() == KwNot;
      if isNot { var _ := Advance(); }
      var ok := Expect(KwNull);
      if !ok { return None; }
      n := Some(IsNull(field, isNot));
    }

    method ParseUnary() returns (n: Option<Node>)
      requires Valid()
      modifies this`i
      ensures Landed(PUnary(toks, old(i)), n)
      decreases |toks| - i, 0
    {
      if Current() == KwNot {
        var _ := Advance();
        var arg := ParseUnary();
        if arg.None? { return None; }
        return Some(Not(arg.value));
      }
      if Current() == LParen {
        var _ := Advance();
        n := ParseOr();
        if n.None? { return; }
        var ok := Expect(RParen);
        if !ok { n := None; }
        return;
      }
      n := ParsePredicate();
    }

    method ParseAnd() returns (n: Option<Node>)
      requires Valid()
      modifies this`i
      ensures Landed(PLevel(Ands, toks, old(i)), n)
      decreases |toks| - i, 1
    {
      var left := ParseUnary();
      assert POperand(Ands, toks, old(i)) == PUnary(toks, old(i));
      if left.None? || Current() != KwAnd { return left; }
      var args := [left.value];
      while Current() == KwAnd
        invariant Valid() && old(i) < i
        invariant PLevel(Ands, toks, old(i)) == PTail(Ands, toks, i, args)
        decreases |toks| - i
      {
        var _ := Advance();
        var right := ParseUnary();
        if right.None? { return None; }
        args := args + [right.value];
      }
      n := Some(Logic("AND", args));
    }

    method ParseOr() returns (n: Option<Node>)
      requires Valid()
      modifies this`i
      ensures Landed(PLevel(Ors, toks, old(i)), n)
      decreases |toks| - i, 2
    {
      var left := ParseAnd();
      assert POperand(Ors, toks, old(i)) == PLevel(Ands, toks, old(i));
      if left.None? || Current() != KwOr { return left; }
      var args := [left.value];
      while Current() == KwOr
        invariant Valid() && old(i) < i
        invariant PLevel(Ors, toks, old(i)) == PTail(Ors, toks, i, args)
        decreases |toks| - i
      {
        var _ := Advance();
        var right := ParseAnd();
        if right.None? { return None; }
        args := args + [right.value];
      }
      n := Some(Logic("OR", args));
    }
  }

  method ParseText(cc: Classes, s: string) returns (r: Option<Node>)
    ensures r == Parse(cc, s)
  {
    var toks := LexAll(cc, s);
    if toks.None? { return None; }
    var p := new ParserState(toks.value);
    r := p.ParseOr();
    if r.Some? && p.Current() != EOF { r := None; }
  }
}
