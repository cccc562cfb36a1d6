/**
 * Printing then parsing gives the tree back (pkg/ir/emit.go against pkg/ir/lexer.go and
 * pkg/ir/parser.go), character by character. The proof goes through the token list of a
 * tree: the printed text lexes to it, and the grammar derives the tree from it.
 */
module RoundTrip {
  import opened Prelude
  import opened Ir
  import opened Lexer
  import opened Parser
  import opened Grammar
  import opened Printer

  // ---- which trees -----------------------------------------------------------------------

  predicate IsName(cc: Classes, f: string) {
    f != "" && cc.IdentStart(f[0]) && (forall c :: c in f ==> cc.IdentPart(c)) && Upper(f) !in KEYWORDS
  }

  predicate IsNumber(cc: Classes, t: string) {
    t != "" && cc.digit(t[0]) && forall c :: c in t ==> cc.NumPart(c)
  }

  /** Every Logic has at least `width` operands; names, numbers and operators are the lexer's. */
  predicate Shaped(cc: Classes, n: Node, width: nat) {
    match n
    case Logic(op, args) =>
      op in {"AND", "OR"} && |args| >= width && forall a :: a in args ==> Shaped(cc, a, width)
    case Compare(f, op, v) => IsName(cc, f) && op in OPERATORS && ShapedLit(cc, v)
    case Between(f, lo, hi) => IsName(cc, f) && ShapedLit(cc, lo) && ShapedLit(cc, hi)
    case In(f, vs, _) => IsName(cc, f) && vs != [] && forall v :: v in vs ==> ShapedLit(cc, v)
    case Like(f, _, _) => IsName(cc, f)
    case IsNull(f, _) => IsName(cc, f)
    case Not(a) => Shaped(cc, a, width)
  }

  predicate ShapedLit(cc: Classes, v: Literal) { v.Num? ==> IsNumber(cc, v.text) }

  predicate QuietText(s: string) { '\'' !in s && '\\' !in s }
  predicate QuietLit(v: Literal) { v.Str? ==> QuietText(v.text) }

  /** No string in the tree contains a quote or a backslash, which the printer does not escape. */
  predicate Quiet(n: Node) {
    match n
    case Logic(_, args) => forall a :: a in args ==> Quiet(a)
    case Compare(_, _, v) => QuietLit(v)
    case Between(_, lo, hi) => QuietLit(lo) && QuietLit(hi)
    case In(_, vs, _) => forall v :: v in vs ==> QuietLit(v)
    case Like(_, p, _) => QuietText(p)
    case IsNull(_, _) => true
    case Not(a) => Quiet(a)
  }

  predicate Clean(cc: Classes, n: Node) { Shaped(cc, n, 2) && Quiet(n) }

  // ---- the token list of a tree ----------------------------------------------------------

  function Connective(op: string): Token { if op == "OR" then KwOr else KwAnd }

  function Tokens(n: Node): seq<Token>
    decreases n, 1
  {
    match n
    case Logic(op, args) => Join(TokenParts(args), [Connective(op)])
    case Compare(f, op, v) => [Ident(f), Op(op), LitToken(v)]
    case Between(f, lo, hi) => [Ident(f), KwBetween, LitToken(lo), KwAnd, LitToken(hi)]
    case In(f, vs, neg) =>
      [Ident(f)] + (if neg then [KwNot, KwIn, LParen] else [KwIn, LParen]) + Join(LitTokens(vs), [Comma]) + [RParen]
    case Like(f, p, neg) => [Ident(f)] + (if neg then [KwNot, KwLike, Quoted(p)] else [KwLike, Quoted(p)])
    case IsNull(f, neg) => [Ident(f)] + (if neg then [KwIs, KwNot, KwNull] else [KwIs, KwNull])
    case Not(a) => [KwNot, LParen] + Tokens(a) + [RParen]
  }

  function TokenParts(args: seq<Node>): seq<seq<Token>>
    decreases args, 0
  {
    if args == [] then [] else [WrapTokens(args[0])] + TokenParts(args[1..])
  }

  function WrapTokens(n: Node): seq<Token>
    decreases n, 2
  {
    if n.Logic? then [LParen] + Tokens(n) + [RParen] else Tokens(n)
  }

  // ---- the token list derives the tree ----------------------------------------------------

  /** The first part of a join, and what follows it. */
  lemma JoinHead(c: Token, args: seq<Node>)
    requires args != []
    ensures Join(TokenParts(args), [c]) ==
            if |args| == 1 then WrapTokens(args[0])
            else WrapTokens(args[0]) + ([c] + Join(TokenParts(args[1..]), [c]))
  {
    JoinCons(WrapTokens(args[0]), TokenParts(args[1..]), [c]);
  }

  lemma LeafDerives(cc: Classes, n: Node)
    requires Shaped(cc, n, 2) && !n.Logic? && !n.Not?
    ensures IsPredicate(Tokens(n), n)
  {
    hide Join, LitTokens, IsName, ShapedLit;
  }

  /** An operand stands at every level. */
  lemma UnaryStands(g: Category, t: seq<Token>, n: Node)
    requires Derives(UnaryExpr, t, n)
    ensures Derives(g, t, n)
  {
    assert Derives(AndExpr, t, n);
  }

  lemma ParensDerive(t: seq<Token>, n: Node)
    requires Derives(OrExpr, t, n)
    ensures Derives(UnaryExpr, [LParen] + t + [RParen], n)
  {
    var u := [LParen] + t + [RParen];
    assert u[1..|u| - 1] == t;
  }

  lemma NotDerives(t: seq<Token>, n: Node)
    requires Derives(UnaryExpr, t, n)
    ensures Derives(UnaryExpr, [KwNot] + t, Not(n))
  {
    assert ([KwNot] + t)[1..] == t;
  }

  lemma {:induction false} TokensDerive(cc: Classes, n: Node)
    requires Shaped(cc, n, 2)
    ensures Derives(OrExpr, Tokens(n), n) && (!n.Logic? ==> Derives(UnaryExpr, Tokens(n), n))
    decreases n, 1
  {
    hide Derives, IsPredicate;
    match n
    case Logic(op, args) =>
      var g := if op == "OR" then OrExpr else AndExpr;
      ChainDerives(cc, g, args);
      ChainStands(g, Tokens(n), n);
    case Not(a) =>
      TokensDerive(cc, a);
      ParensDerive(Tokens(a), a);
      NotDerives([LParen] + Tokens(a) + [RParen], a);
      assert [KwNot] + ([LParen] + Tokens(a) + [RParen]) == Tokens(n);
      UnaryStands(OrExpr, Tokens(n), n);
    case _ =>
      LeafDerives(cc, n);
      LeafStands(Tokens(n), n);
      UnaryStands(OrExpr, Tokens(n), n);
  }

  lemma LeafStands(t: seq<Token>, n: Node)
    requires IsPredicate(t, n)
    ensures Derives(UnaryExpr, t, n)
  {
  }

  lemma ChainStands(g: Category, t: seq<Token>, n: Node)
    requires !g.UnaryExpr? && n.Logic? && n.op == g.Connective() && |n.args| >= 2 && DerivesChain(g, t, n.args)
    ensures Derives(OrExpr, t, n)
  {
    assert Derives(g, t, n);
  }

  lemma {:induction false} WrapDerives(cc: Classes, n: Node)
    requires Shaped(cc, n, 2)
    ensures Derives(UnaryExpr, WrapTokens(n), n)
    decreases n, 2
  {
    hide Derives;
    TokensDerive(cc, n);
    if n.Logic? { ParensDerive(Tokens(n), n); }
  }

  lemma {:induction false} ChainDerives(cc: Classes, g: Category, args: seq<Node>)
    requires !g.UnaryExpr? && args != [] && forall a :: a in args ==> Shaped(cc, a, 2)
    ensures DerivesChain(g, Join(TokenParts(args), [g.Separator()]), args)
    decreases args, 3
  {
    hide Derives, Join, TokenParts, WrapTokens, Shaped;
    var head := WrapTokens(args[0]);
    WrapDerives(cc, args[0]);
    UnaryStands(g.Operand(), head, args[0]);
    JoinHead(g.Separator(), args);
    if |args| > 1 {
      ChainDerives(cc, g, args[1..]);
      var tail := Join(TokenParts(args[1..]), [g.Separator()]);
      var t := head + ([g.Separator()] + tail);
      assert t[|head|] == g.Separator() && t[..|head|] == head && t[|head| + 1..] == tail;
    }
  }

  /** A whole expression parses, provided no AND/OR continues it. */
  lemma ParseTokens(cc: Classes, n: Node, ts: seq<Token>, i: nat)
    requires Shaped(cc, n, 2) && At(ts, i, Tokens(n))
    requires Cur(ts, i + |Tokens(n)|) !in {KwAnd, KwOr}
    ensures PLevel(Ors, ts, i) == Some((n, i + |Tokens(n)|))
  {
    hide Derives, Tokens;
    TokensDerive(cc, n);
    Complete(OrExpr, Tokens(n), n, ts, i);
  }

  // ---- the printed text lexes to the token list --------------------------------------------

  /** What may follow a word or a number for it to end there. */
  predicate Delimited(rest: string) {
    rest == "" || rest[0] == ' ' || rest[0] == ')' || rest[0] == ','
  }

  lemma LexSpace(cc: Classes, s: string)
    requires cc.space(' ')
    ensures Lex(cc, " " + s) == Lex(cc, s)
  {
    assert (" " + s)[1..] == s;
    assert (" " + s)[1 + Span(cc.space, s)..] == s[Span(cc.space, s)..];
    assert Next(cc, " " + s) == Next(cc, s);
  }

  /** One token read from the front of a text. */
  lemma LexStep(cc: Classes, text: string, t: Token, rest: string)
    requires Next(cc, text) == Got(t, rest) && t != EOF
    ensures Lex(cc, text) == Prepend([t], Lex(cc, rest))
  {
  }

  lemma LexMark(cc: Classes, c: char, rest: string)
    requires cc.Sane() && c in "(),"
    ensures Lex(cc, [c] + rest) ==
            Prepend([if c == '(' then LParen else if c == ')' then RParen else Comma], Lex(cc, rest))
  {
    var text := [c] + rest;
    assert text[1..] == rest && c in PUNCTUATION && Span(cc.space, text) == 0;
    assert text[0..] == text;
    LexStep(cc, text, if c == '(' then LParen else if c == ')' then RParen else Comma, rest);
  }

  /** A character that opens a word or a number opens nothing else. */
  lemma Opens(cc: Classes, c: char)
    requires cc.Sane() && (cc.IdentStart(c) || cc.digit(c))
    ensures !cc.space(c) && c !in "(),'\"" && !OpensOperator(c) && (cc.IdentStart(c) ==> !cc.digit(c))
  {
    assert '_' in PUNCTUATION;
    assert forall d :: d in "(),'\"" || OpensOperator(d) ==> d in PUNCTUATION && d != '_';
  }

  lemma Ends(cc: Classes, rest: string)
    requires cc.Sane() && Delimited(rest) && rest != ""
    ensures !cc.IdentPart(rest[0]) && !cc.NumPart(rest[0])
  {
    assert rest[0] == ' ' || rest[0] in PUNCTUATION;
  }

  lemma LexWord(cc: Classes, w: string, rest: string)
    requires cc.Sane() && w != "" && cc.IdentStart(w[0]) && (forall c :: c in w ==> cc.IdentPart(c))
    requires Delimited(rest)
    ensures Lex(cc, w + rest) == Prepend([WordToken(w)], Lex(cc, rest))
  {
    hide Lex, Upper, Body, Operator;
    var text := w + rest;
    assert text[0] == w[0] && text[0..] == text;
    Opens(cc, w[0]);
    if rest != "" { Ends(cc, rest); }
    SpanExact(cc.IdentPart, w, rest);
    assert text[..|w|] == w && text[|w|..] == rest;
    LexStep(cc, text, WordToken(w), rest);
  }

  lemma LexName(cc: Classes, f: string, rest: string)
    requires cc.Sane() && IsName(cc, f) && Delimited(rest)
    ensures Lex(cc, f + rest) == Prepend([Ident(f)], Lex(cc, rest))
  {
    hide Lex, Upper, WordToken;
    NameToken(cc, f);
    LexWord(cc, f, rest);
  }

  lemma NameToken(cc: Classes, f: string)
    requires IsName(cc, f)
    ensures WordToken(f) == Ident(f)
  {
    hide Upper;
    assert forall k :: k in KEYWORDS ==> Upper(f) != k;
  }

  lemma LexKeyword(cc: Classes, k: string, rest: string)
    requires cc.Sane() && k in KEYWORDS && Delimited(rest)
    ensures Lex(cc, k + rest) == Prepend([WordToken(k)], Lex(cc, rest))
  {
    assert forall c :: c in k ==> 'A' <= c <= 'Z';
    LexWord(cc, k, rest);
  }

  lemma KeywordTokens()
    ensures WordToken("AND") == KwAnd && WordToken("OR") == KwOr && WordToken("BETWEEN") == KwBetween
    ensures WordToken("IN") == KwIn && WordToken("LIKE") == KwLike && WordToken("IS") == KwIs
    ensures WordToken("NOT") == KwNot && WordToken("NULL") == KwNull
  {
    assert forall k :: k in KEYWORDS ==> Upper(k) == k;
  }

  lemma LexNumber(cc: Classes, t: string, rest: string)
    requires cc.Sane() && IsNumber(cc, t) && Delimited(rest)
    ensures Lex(cc, t + rest) == Prepend([Number(t)], Lex(cc, rest))
  {
    var text := t + rest;
    assert text[0] == t[0] && text[0..] == text;
    Opens(cc, t[0]);
    if rest != "" { Ends(cc, rest); }
    SpanExact(cc.NumPart, t, rest);
    assert text[..|t|] == t && text[|t|..] == rest;
    LexStep(cc, text, Number(t), rest);
  }

  lemma {:induction false} PlainBody(quote: char, w: string, rest: string)
    requires quote !in w && '\\' !in w && quote != '\\'
    ensures Body(quote, w + ([quote] + rest)) == Got(Quoted(w), rest)
  {
    var s := w + ([quote] + rest);
    if w == "" {
      assert s == [quote] + rest && s[1..] == rest;
    } else {
      assert s[0] == w[0] && s[1..] == w[1..] + ([quote] + rest);
      PlainBody(quote, w[1..], rest);
      assert [w[0]] + w[1..] == w;
    }
  }

  /** A string between quotes of either kind that it contains neither of, nor a backslash. */
  lemma LexBetweenQuotes(cc: Classes, quote: char, w: string, rest: string)
    requires cc.Sane() && quote in "'\"" && quote !in w && '\\' !in w
    ensures Lex(cc, [quote] + (w + ([quote] + rest))) == Prepend([Quoted(w)], Lex(cc, rest))
  {
    hide Lex, Body;
    var text := [quote] + (w + ([quote] + rest));
    assert quote in PUNCTUATION && Span(cc.space, text) == 0 && text[0..] == text;
    assert text[1..] == w + ([quote] + rest);
    PlainBody(quote, w, rest);
    LexStep(cc, text, Quoted(w), rest);
  }

  lemma LexQuoted(cc: Classes, w: string, rest: string)
    requires cc.Sane() && QuietText(w)
    ensures Lex(cc, "'" + (w + ("'" + rest))) == Prepend([Quoted(w)], Lex(cc, rest))
  {
    assert ['\''] == "'";
    LexBetweenQuotes(cc, '\'', w, rest);
  }

  lemma LexLiteral(cc: Classes, v: Literal, rest: string)
    requires cc.Sane() && ShapedLit(cc, v) && QuietLit(v) && Delimited(rest)
    ensures Lex(cc, SqlVal(v) + rest) == Prepend([LitToken(v)], Lex(cc, rest))
  {
    if v.Str? {
      assert "'" + v.text + "'" + rest == "'" + (v.text + ("'" + rest));
      LexQuoted(cc, v.text, rest);
    } else {
      LexNumber(cc, v.text, rest);
    }
  }

  lemma ReadOperator(op: string, rest: string)
    requires op in OPERATORS && rest != "" && rest[0] == ' '
    ensures OpensOperator(op[0]) && Operator(op + rest) == Got(Op(op), rest)
  {
    var text := op + rest;
    assert text[0] == op[0];
    assert |op| == 1 ==> text[1..] == rest && text[1] == ' ' && op == [op[0]];
    assert |op| == 2 ==> text[2..] == rest && text[1] == op[1] && op == [op[0], op[1]];
  }

  lemma LexOperator(cc: Classes, op: string, rest: string)
    requires cc.Sane() && op in OPERATORS && rest != "" && rest[0] == ' '
    ensures Lex(cc, op + rest) == Prepend([Op(op)], Lex(cc, rest))
  {
    hide Lex, Operator, Body;
    var text := op + rest;
    ReadOperator(op, rest);
    assert text[0] == op[0] && text[0..] == text;
    assert op[0] in PUNCTUATION;
    LexStep(cc, text, Op(op), rest);
  }

  /** A keyword with a space before it. */
  lemma LexSpaced(cc: Classes, k: string, rest: string)
    requires cc.Sane() && k in KEYWORDS && Delimited(rest)
    ensures Lex(cc, " " + (k + rest)) == Prepend([WordToken(k)], Lex(cc, rest))
  {
    LexSpace(cc, k + rest);
    LexKeyword(cc, k, rest);
  }

  // What the printer puts before each literal or operand, followed by any text at all.

  lemma HeadCompare(cc: Classes, f: string, op: string, s: string)
    requires cc.Sane() && IsName(cc, f) && op in OPERATORS
    ensures Lex(cc, f + " " + op + " " + s) == Prepend([Ident(f), Op(op)], Lex(cc, s))
  {
    hide Lex, IsName;
    var s1 := op + (" " + s);
    assert f + " " + op + " " + s == f + (" " + s1);
    LexSpace(cc, s);
    LexOperator(cc, op, " " + s);
    LexSpace(cc, s1);
    LexName(cc, f, " " + s1);
    PrependTwice([Ident(f)], [Op(op)], Lex(cc, s));
    assert [Ident(f)] + [Op(op)] == [Ident(f), Op(op)];
  }

  lemma HeadWord(cc: Classes, k: string, s: string)
    requires cc.Sane() && k in KEYWORDS
    ensures Lex(cc, " " + k + " " + s) == Prepend([WordToken(k)], Lex(cc, s))
  {
    assert " " + k + " " + s == " " + (k + (" " + s));
    LexSpace(cc, s);
    LexSpaced(cc, k, " " + s);
  }

  lemma HeadBetween(cc: Classes, f: string, s: string)
    requires cc.Sane() && IsName(cc, f)
    ensures Lex(cc, f + " BETWEEN " + s) == Prepend([Ident(f), KwBetween], Lex(cc, s))
  {
    hide Lex, IsName, WordToken;
    var s1 := " " + "BETWEEN" + " " + s;
    assert f + " BETWEEN " + s == f + s1;
    HeadWord(cc, "BETWEEN", s);
    KeywordTokens();
    LexName(cc, f, s1);
    PrependTwice([Ident(f)], [KwBetween], Lex(cc, s));
    assert [Ident(f)] + [KwBetween] == [Ident(f), KwBetween];
  }

  /** The field, ` NOT` when the predicate is negated, and the keyword. */
  lemma HeadNegatable(cc: Classes, f: string, neg: bool, k: string, s: string)
    requires cc.Sane() && IsName(cc, f) && k in KEYWORDS
    ensures Lex(cc, f + ((if neg then " NOT" else "") + (" " + k + " " + s))) ==
            Prepend([Ident(f)] + (if neg then [KwNot] else []) + [WordToken(k)], Lex(cc, s))
  {
    hide Lex, IsName, WordToken;
    var not, nots := if neg then " NOT" else "", if neg then [KwNot] else [];
    HeadWord(cc, k, s);
    LexNegation(cc, neg, " " + k + " " + s);
    PrependTwice(nots, [WordToken(k)], Lex(cc, s));
    LexName(cc, f, not + (" " + k + " " + s));
    PrependTwice([Ident(f)], nots + [WordToken(k)], Lex(cc, s));
    assert [Ident(f)] + (nots + [WordToken(k)]) == [Ident(f)] + nots + [WordToken(k)];
  }

  /** ` NOT` when the predicate is negated, nothing otherwise. */
  lemma LexNegation(cc: Classes, neg: bool, rest: string)
    requires cc.Sane() && Delimited(rest)
    ensures Lex(cc, (if neg then " NOT" else "") + rest) == Prepend(if neg then [KwNot] else [], Lex(cc, rest))
  {
    if neg {
      assert " NOT" + rest == " " + ("NOT" + rest);
      LexSpaced(cc, "NOT", rest);
      KeywordTokens();
    } else {
      assert "" + rest == rest;
      PrependNothing(Lex(cc, rest));
    }
  }

  lemma HeadLike(cc: Classes, f: string, neg: bool, s: string)
    requires cc.Sane() && IsName(cc, f)
    ensures Lex(cc, f + (if neg then " NOT LIKE " else " LIKE ") + s) ==
            Prepend([Ident(f)] + (if neg then [KwNot] else []) + [KwLike], Lex(cc, s))
  {
    hide Lex, WordToken;
    HeadNegatable(cc, f, neg, "LIKE", s);
    KeywordTokens();
    assert f + (if neg then " NOT LIKE " else " LIKE ") + s
        == f + ((if neg then " NOT" else "") + (" " + "LIKE" + " " + s));
  }

  lemma HeadIn(cc: Classes, f: string, neg: bool, s: string)
    requires cc.Sane() && IsName(cc, f)
    ensures Lex(cc, f + (if neg then " NOT IN (" else " IN (") + s) ==
            Prepend([Ident(f)] + (if neg then [KwNot] else []) + [KwIn, LParen], Lex(cc, s))
  {
    hide Lex, WordToken;
    var nots := if neg then [KwNot] else [];
    LexMark(cc, '(', s);
    HeadNegatable(cc, f, neg, "IN", ['('] + s);
    KeywordTokens();
    assert f + (if neg then " NOT IN (" else " IN (") + s
        == f + ((if neg then " NOT" else "") + (" " + "IN" + " " + (['('] + s)));
    PrependTwice([Ident(f)] + nots + [KwIn], [LParen], Lex(cc, s));
    assert [Ident(f)] + nots + [KwIn] + [LParen] == [Ident(f)] + nots + [KwIn, LParen];
  }

  lemma HeadNot(cc: Classes, s: string)
    requires cc.Sane()
    ensures Lex(cc, "NOT (" + s) == Prepend([KwNot, LParen], Lex(cc, s))
  {
    hide Lex, WordToken;
    LexMark(cc, '(', s);
    LexSpace(cc, ['('] + s);
    LexKeyword(cc, "NOT", " " + (['('] + s));
    KeywordTokens();
    assert "NOT (" + s == "NOT" + (" " + (['('] + s));
    PrependTwice([KwNot], [LParen], Lex(cc, s));
    assert [KwNot] + [LParen] == [KwNot, LParen];
  }

  // The printed predicates.

  lemma LexCompare(cc: Classes, f: string, op: string, v: Literal, rest: string)
    requires cc.Sane() && Delimited(rest)
    requires IsName(cc, f) && op in OPERATORS && ShapedLit(cc, v) && QuietLit(v)
    ensures Lex(cc, Sql(Compare(f, op, v)) + rest) == Prepend(Tokens(Compare(f, op, v)), Lex(cc, rest))
  {
    hide Lex, SqlVal, IsName, ShapedLit, QuietLit;
    assert Sql(Compare(f, op, v)) + rest == f + " " + op + " " + (SqlVal(v) + rest);
    HeadCompare(cc, f, op, SqlVal(v) + rest);
    LexLiteral(cc, v, rest);
    PrependTwice([Ident(f), Op(op)], [LitToken(v)], Lex(cc, rest));
    assert [Ident(f), Op(op)] + [LitToken(v)] == Tokens(Compare(f, op, v));
  }

  /** The two bounds of a BETWEEN. */
  lemma LexBounds(cc: Classes, lo: Literal, s: string)
    requires cc.Sane() && ShapedLit(cc, lo) && QuietLit(lo)
    ensures Lex(cc, SqlVal(lo) + (" AND " + s)) == Prepend([LitToken(lo), KwAnd], Lex(cc, s))
  {
    hide Lex, SqlVal, ShapedLit, QuietLit, WordToken;
    HeadWord(cc, "AND", s);
    KeywordTokens();
    assert " " + "AND" + " " + s == " AND " + s;
    LexLiteral(cc, lo, " AND " + s);
    PrependTwice([LitToken(lo)], [KwAnd], Lex(cc, s));
    assert [LitToken(lo)] + [KwAnd] == [LitToken(lo), KwAnd];
  }

  lemma LexBetween(cc: Classes, f: string, lo: Literal, hi: Literal, rest: string)
    requires cc.Sane() && Delimited(rest) && IsName(cc, f)
    requires ShapedLit(cc, lo) && QuietLit(lo) && ShapedLit(cc, hi) && QuietLit(hi)
    ensures Lex(cc, Sql(Between(f, lo, hi)) + rest) == Prepend(Tokens(Between(f, lo, hi)), Lex(cc, rest))
  {
    hide Lex, SqlVal, IsName, ShapedLit, QuietLit;
    var s1 := SqlVal(lo) + (" AND " + (SqlVal(hi) + rest));
    assert Sql(Between(f, lo, hi)) + rest == f + " BETWEEN " + s1;
    HeadBetween(cc, f, s1);
    LexBounds(cc, lo, SqlVal(hi) + rest);
    LexLiteral(cc, hi, rest);
    PrependTwice([LitToken(lo), KwAnd], [LitToken(hi)], Lex(cc, rest));
    PrependTwice([Ident(f), KwBetween], [LitToken(lo), KwAnd] + [LitToken(hi)], Lex(cc, rest));
    assert [Ident(f), KwBetween] + ([LitToken(lo), KwAnd] + [LitToken(hi)]) == Tokens(Between(f, lo, hi));
  }

  lemma LexLike(cc: Classes, f: string, p: string, neg: bool, rest: string)
    requires cc.Sane() && IsName(cc, f) && QuietText(p)
    ensures Lex(cc, Sql(Like(f, p, neg)) + rest) == Prepend(Tokens(Like(f, p, neg)), Lex(cc, rest))
  {
    hide Lex, IsName, QuietText;
    var head := [Ident(f)] + (if neg then [KwNot] else []) + [KwLike];
    var s := "'" + (p + ("'" + rest));
    assert Sql(Like(f, p, neg)) + rest == f + (if neg then " NOT LIKE " else " LIKE ") + s;
    HeadLike(cc, f, neg, s);
    LexQuoted(cc, p, rest);
    PrependTwice(head, [Quoted(p)], Lex(cc, rest));
    assert head + [Quoted(p)] == Tokens(Like(f, p, neg));
  }

  /** What follows the field of an IS NULL test. */
  lemma SpaceDelimits(s: string)
    ensures Delimited(" " + s)
  {
  }

  lemma LexIs(cc: Classes, neg: bool, rest: string)
    requires cc.Sane() && Delimited(rest)
    ensures Lex(cc, (if neg then " IS NOT NULL" else " IS NULL") + rest) ==
            Prepend(if neg then [KwIs, KwNot, KwNull] else [KwIs, KwNull], Lex(cc, rest))
  {
    hide Lex, WordToken, Prepend, Delimited;
    var s1 := " " + ("NULL" + rest);
    SpaceDelimits("NULL" + rest);
    SpaceDelimits("NOT" + s1);
    var not, nots := if neg then " NOT" else "", if neg then [KwNot] else [];
    assert (if neg then " IS NOT NULL" else " IS NULL") + rest == " " + ("IS" + (not + s1));
    assert not + s1 == if neg then " " + ("NOT" + s1) else s1;
    KeywordTokens();
    LexSpaced(cc, "NULL", rest);
    LexNegation(cc, neg, s1);
    PrependTwice(nots, [KwNull], Lex(cc, rest));
    LexSpaced(cc, "IS", not + s1);
    PrependTwice([KwIs], nots + [KwNull], Lex(cc, rest));
    assert [KwIs] + (nots + [KwNull]) == if neg then [KwIs, KwNot, KwNull] else [KwIs, KwNull];
  }

  lemma LexIsNull(cc: Classes, f: string, neg: bool, rest: string)
    requires cc.Sane() && Delimited(rest) && IsName(cc, f)
    ensures Lex(cc, Sql(IsNull(f, neg)) + rest) == Prepend(Tokens(IsNull(f, neg)), Lex(cc, rest))
  {
    hide Lex, IsName;
    var s := (if neg then " IS NOT NULL" else " IS NULL") + rest;
    var toks := if neg then [KwIs, KwNot, KwNull] else [KwIs, KwNull];
    assert Sql(IsNull(f, neg)) + rest == f + s;
    LexIs(cc, neg, rest);
    LexName(cc, f, s);
    PrependTwice([Ident(f)], toks, Lex(cc, rest));
    assert [Ident(f)] + toks == Tokens(IsNull(f, neg));
  }

  /** A list item and the comma after it. */
  lemma LexItem(cc: Classes, v: Literal, s: string)
    requires cc.Sane() && ShapedLit(cc, v) && QuietLit(v)
    ensures Lex(cc, SqlVal(v) + (", " + s)) == Prepend([LitToken(v), Comma], Lex(cc, s))
  {
    hide Lex, SqlVal, ShapedLit, QuietLit;
    assert ", " + s == [','] + (" " + s);
    LexSpace(cc, s);
    LexMark(cc, ',', " " + s);
    LexLiteral(cc, v, ", " + s);
    PrependTwice([LitToken(v)], [Comma], Lex(cc, s));
    assert [LitToken(v)] + [Comma] == [LitToken(v), Comma];
  }

  lemma {:induction false} LexList(cc: Classes, vs: seq<Literal>, rest: string)
    requires cc.Sane() && vs != [] && (forall v :: v in vs ==> ShapedLit(cc, v) && QuietLit(v)) && Delimited(rest)
    ensures Lex(cc, Join(SqlVals(vs), ", ") + rest) == Prepend(Join(LitTokens(vs), [Comma]), Lex(cc, rest))
  {
    hide Lex, SqlVal, ShapedLit, QuietLit, LitToken;
    JoinCons(SqlVal(vs[0]), SqlVals(vs[1..]), ", ");
    JoinCons([LitToken(vs[0])], LitTokens(vs[1..]), [Comma]);
    if |vs| == 1 {
      LexLiteral(cc, vs[0], rest);
    } else {
      var tail, toks := Join(SqlVals(vs[1..]), ", "), Join(LitTokens(vs[1..]), [Comma]);
      assert Join(SqlVals(vs), ", ") + rest == SqlVal(vs[0]) + (", " + (tail + rest));
      LexList(cc, vs[1..], rest);
      LexItem(cc, vs[0], tail + rest);
      PrependTwice([LitToken(vs[0]), Comma], toks, Lex(cc, rest));
      assert [LitToken(vs[0])] + ([Comma] + toks) == [LitToken(vs[0]), Comma] + toks;
    }
  }

  lemma LexIn(cc: Classes, f: string, vs: seq<Literal>, neg: bool, rest: string)
    requires cc.Sane() && IsName(cc, f) && vs != []
    requires forall v :: v in vs ==> ShapedLit(cc, v) && QuietLit(v)
    ensures Lex(cc, Sql(In(f, vs, neg)) + rest) == Prepend(Tokens(In(f, vs, neg)), Lex(cc, rest))
  {
    hide Lex, Join, SqlVals, LitTokens, ShapedLit, QuietLit, IsName;
    var list, toks := Join(SqlVals(vs), ", "), Join(LitTokens(vs), [Comma]);
    var head := [Ident(f)] + (if neg then [KwNot] else []) + [KwIn, LParen];
    assert Sql(In(f, vs, neg)) + rest == f + (if neg then " NOT IN (" else " IN (") + (list + ([')'] + rest));
    HeadIn(cc, f, neg, list + ([')'] + rest));
    LexMark(cc, ')', rest);
    LexList(cc, vs, [')'] + rest);
    PrependTwice(toks, [RParen], Lex(cc, rest));
    PrependTwice(head, toks + [RParen], Lex(cc, rest));
    assert head + (toks + [RParen]) == Tokens(In(f, vs, neg));
  }

  lemma LexParens(cc: Classes, text: string, toks: seq<Token>, rest: string)
    requires cc.Sane()
    requires Lex(cc, text + ([')'] + rest)) == Prepend(toks, Lex(cc, [')'] + rest))
    ensures Lex(cc, "(" + text + ")" + rest) == Prepend([LParen] + toks + [RParen], Lex(cc, rest))
  {
    hide Lex;
    assert "(" + text + ")" + rest == ['('] + (text + ([')'] + rest));
    LexMark(cc, ')', rest);
    LexMark(cc, '(', text + ([')'] + rest));
    PrependTwice(toks, [RParen], Lex(cc, rest));
    PrependTwice([LParen], toks + [RParen], Lex(cc, rest));
    assert [LParen] + (toks + [RParen]) == [LParen] + toks + [RParen];
  }

  lemma LexNot(cc: Classes, a: Node, rest: string)
    requires cc.Sane() && Lex(cc, Sql(a) + ([')'] + rest)) == Prepend(Tokens(a), Lex(cc, [')'] + rest))
    ensures Lex(cc, Sql(Not(a)) + rest) == Prepend(Tokens(Not(a)), Lex(cc, rest))
  {
    hide Lex;
    var text, toks := Sql(a), Tokens(a);
    assert Sql(Not(a)) + rest == "NOT (" + (text + ([')'] + rest));
    HeadNot(cc, text + ([')'] + rest));
    LexMark(cc, ')', rest);
    PrependTwice(toks, [RParen], Lex(cc, rest));
    PrependTwice([KwNot, LParen], toks + [RParen], Lex(cc, rest));
    assert [KwNot, LParen] + (toks + [RParen]) == Tokens(Not(a));
  }

  lemma {:induction false} LexNode(cc: Classes, n: Node, rest: string)
    requires cc.Sane() && Shaped(cc, n, 1) && Quiet(n) && Delimited(rest)
    ensures Lex(cc, Sql(n) + rest) == Prepend(Tokens(n), Lex(cc, rest))
    decreases n, 1
  {
    hide Lex, Next, IsName, ShapedLit, QuietLit, QuietText;
    match n
    case Logic(op, args) => LexParts(cc, op, args, rest);
    case Compare(f, op, v) => LexCompare(cc, f, op, v, rest);
    case Between(f, lo, hi) => LexBetween(cc, f, lo, hi, rest);
    case In(f, vs, neg) => LexIn(cc, f, vs, neg, rest);
    case Like(f, p, neg) => LexLike(cc, f, p, neg, rest);
    case IsNull(f, neg) => LexIsNull(cc, f, neg, rest);
    case Not(a) =>
      LexNode(cc, a, [')'] + rest);
      LexNot(cc, a, rest);
  }

  lemma {:induction false} LexWrapped(cc: Classes, n: Node, rest: string)
    requires cc.Sane() && Shaped(cc, n, 1) && Quiet(n) && Delimited(rest)
    ensures Lex(cc, WrapSql(n) + rest) == Prepend(WrapTokens(n), Lex(cc, rest))
    decreases n, 2
  {
    if n.Logic? {
      LexNode(cc, n, [')'] + rest);
      LexParens(cc, Sql(n), Tokens(n), rest);
    } else {
      LexNode(cc, n, rest);
    }
  }

  lemma {:induction false} LexParts(cc: Classes, op: string, args: seq<Node>, rest: string)
    requires cc.Sane() && op in {"AND", "OR"} && args != [] && Delimited(rest)
    requires forall a :: a in args ==> Shaped(cc, a, 1) && Quiet(a)
    ensures Lex(cc, Join(SqlParts(args), " " + op + " ") + rest) ==
            Prepend(Join(TokenParts(args), [Connective(op)]), Lex(cc, rest))
    decreases args, 3
  {
    hide Lex, WrapSql, WrapTokens, Shaped, Quiet, WordToken;
    var sep, c := " " + op + " ", Connective(op);
    JoinCons(WrapSql(args[0]), SqlParts(args[1..]), sep);
    JoinCons(WrapTokens(args[0]), TokenParts(args[1..]), [c]);
    if |args| == 1 {
      LexWrapped(cc, args[0], rest);
    } else {
      var tail, toks := Join(SqlParts(args[1..]), sep), Join(TokenParts(args[1..]), [c]);
      assert Join(SqlParts(args), sep) + rest == WrapSql(args[0]) + (sep + (tail + rest));
      LexParts(cc, op, args[1..], rest);
      HeadWord(cc, op, tail + rest);
      KeywordTokens();
      PrependTwice([c], toks, Lex(cc, rest));
      LexWrapped(cc, args[0], sep + (tail + rest));
      PrependTwice(WrapTokens(args[0]), [c] + toks, Lex(cc, rest));
    }
  }

  // ---- the round trip ----------------------------------------------------------------------

  lemma LexEnd(cc: Classes)
    ensures Lex(cc, "") == Some([EOF])
  {
  }

  /** Parsing the printed SQL of a clean tree returns exactly that tree. */
  lemma ParsePrinted(cc: Classes, n: Node)
    requires cc.Sane() && Clean(cc, n)
    ensures Parse(cc, Sql(n)) == Some(n)
  {
    hide Lex, Sql, Tokens, Shaped, Quiet, PLevel;
    Wider(cc, n);
    LexNode(cc, n, "");
    LexEnd(cc);
    assert Sql(n) + "" == Sql(n);
    var ts := Tokens(n) + [EOF];
    assert Lex(cc, Sql(n)) == Some(ts);
    assert ts[0..0 + |Tokens(n)|] == Tokens(n);
    ParseTokens(cc, n, ts, 0);
  }

  lemma {:induction false} Wider(cc: Classes, n: Node)
    requires Shaped(cc, n, 2)
    ensures Shaped(cc, n, 1)
  {
    match n
    case Logic(_, args) => forall a | a in args ensures Shaped(cc, a, 1) { Wider(cc, a); }
    case Not(a) => Wider(cc, a);
    case _ =>
  }

  /** Hence the printed text identifies a clean tree: it can serve as an equality key. */
  lemma PrintedIsKey(cc: Classes, a: Node, b: Node)
    requires cc.Sane() && Clean(cc, a) && Clean(cc, b)
    ensures Sql(a) == Sql(b) ==> a == b
  {
    ParsePrinted(cc, a);
    ParsePrinted(cc, b);
  }
}
