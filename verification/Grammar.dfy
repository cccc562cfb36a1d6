/**
 * The language of rules as a grammar over tokens, written from its precedence rules, and the parser as
 * exactly its decision procedure (pkg/ir/parser.go:6-226). OR binds loosest, then AND, then NOT, then
 * the predicates; a parenthesised expression stands wherever a predicate does.
 */
module Grammar {
  import opened Prelude
  import opened Ir
  import opened Lexer
  import opened Lexemes
  import opened Parser

  // ---- the grammar -----------------------------------------------------------------------------------

  datatype Category = OrExpr | AndExpr | UnaryExpr {
    function Rank(): nat { match this case OrExpr => 2 case AndExpr => 1 case UnaryExpr => 0 }
    function Operand(): Category { if OrExpr? then AndExpr else UnaryExpr }
    function Separator(): Token { if OrExpr? then KwOr else KwAnd }
    function Connective(): string { if OrExpr? then "OR" else "AND" }
  }

  function LitToken(v: Literal): Token {
    if v.Str? then Quoted(v.text) else Number(v.text)
  }

  function LitTokens(vs: seq<Literal>): seq<seq<Token>> {
    if vs == [] then [] else [[LitToken(vs[0])]] + LitTokens(vs[1..])
  }

  function NotIf(negate: bool): seq<Token> { if negate then [KwNot] else [] }

  /** The five predicates; the AND of BETWEEN is its own. */
  predicate IsPredicate(t: seq<Token>, n: Node) {
    match n
    case Compare(f, op, v) => t == [Ident(f), Op(op), LitToken(v)]
    case Between(f, lo, hi) => t == [Ident(f), KwBetween, LitToken(lo), KwAnd, LitToken(hi)]
    case In(f, vs, neg) =>
      vs != [] && t == [Ident(f)] + NotIf(neg) + [KwIn, LParen] + Join(LitTokens(vs), [Comma]) + [RParen]
    case Like(f, p, neg) => t == [Ident(f)] + NotIf(neg) + [KwLike, Quoted(p)]
    case IsNull(f, neg) => t == [Ident(f), KwIs] + NotIf(neg) + [KwNull]
    case _ => false
  }

  /** The tokens t form an expression of category g whose tree is n. */
  ghost predicate Derives(g: Category, t: seq<Token>, n: Node)
    decreases |t|, 2 * g.Rank() + 1
  {
    if g.UnaryExpr? then
      || (t != [] && t[0] == KwNot && n.Not? && Derives(UnaryExpr, t[1..], n.arg))
      || (|t| >= 2 && t[0] == LParen && t[|t| - 1] == RParen && Derives(OrExpr, t[1..|t| - 1], n))
      || IsPredicate(t, n)
    else
      || Derives(g.Operand(), t, n)
      || (n.Logic? && n.op == g.Connective() && |n.args| >= 2 && DerivesChain(g, t, n.args))
  }

  /** Operands with the category's separator between them. */
  ghost predicate DerivesChain(g: Category, t: seq<Token>, args: seq<Node>)
    requires !g.UnaryExpr?
    decreases |t|, 2 * g.Rank()
  {
    && args != []
    && if |args| == 1 then Derives(g.Operand(), t, args[0])
       else exists k :: 0 <= k < |t| && t[k] == g.Separator()
                        && Derives(g.Operand(), t[..k], args[0]) && DerivesChain(g, t[k + 1..], args[1..])
  }

  // ---- positions in a token list --------------------------------------------------------------------------

  /** ts holds the tokens t from position i on. */
  predicate At(ts: seq<Token>, i: nat, t: seq<Token>) {
    i + |t| <= |ts| && ts[i..i + |t|] == t
  }

  lemma AtSplit(ts: seq<Token>, i: nat, a: seq<Token>, b: seq<Token>)
    requires At(ts, i, a + b)
    ensures At(ts, i, a) && At(ts, i + |a|, b)
  {
    assert ts[i..i + |a|] == (a + b)[..|a|];
    assert ts[i + |a|..i + |a| + |b|] == (a + b)[|a|..];
  }

  lemma AtCur(ts: seq<Token>, i: nat, t: seq<Token>, k: nat)
    requires At(ts, i, t) && k < |t|
    ensures Cur(ts, i + k) == t[k]
  {
    assert ts[i..i + |t|][k] == ts[i + k];
  }

  /** A part of what stands at i stands at its own place. */
  lemma AtPart(ts: seq<Token>, i: nat, t: seq<Token>, a: nat, b: nat)
    requires At(ts, i, t) && a <= b <= |t|
    ensures At(ts, i + a, t[a..b])
  {
    forall k | 0 <= k < b - a ensures ts[i + a..i + b][k] == t[a..b][k] {
      assert ts[i..i + |t|][a + k] == ts[i + a + k];
    }
  }

  lemma AtRest(ts: seq<Token>, i: nat, t: seq<Token>, a: nat)
    requires At(ts, i, t) && a <= |t|
    ensures At(ts, i + a, t[a..])
  {
    AtPart(ts, i, t, a, |t|);
    assert t[a..|t|] == t[a..];
  }

  lemma AtFirst(ts: seq<Token>, i: nat, t: seq<Token>, b: nat)
    requires At(ts, i, t) && b <= |t|
    ensures At(ts, i, t[..b])
  {
    AtPart(ts, i, t, 0, b);
    assert t[0..b] == t[..b];
  }

  // ---- the parser accepts what the grammar derives --------------------------------------------------------

  lemma {:induction false} ParseValues(vs: seq<Literal>, acc: seq<Literal>, ts: seq<Token>, i: nat)
    requires vs != [] && At(ts, i, Join(LitTokens(vs), [Comma]))
    requires Cur(ts, i + |Join(LitTokens(vs), [Comma])|) != Comma
    ensures PValues(ts, i, acc) == Some((acc + vs, i + |Join(LitTokens(vs), [Comma])|))
  {
    var list := Join(LitTokens(vs), [Comma]);
    if |vs| == 1 {
      assert LitTokens(vs) == [[LitToken(vs[0])]] && acc + vs == acc + [vs[0]];
      AtCur(ts, i, list, 0);
    } else {
      var tail := Join(LitTokens(vs[1..]), [Comma]);
      assert LitTokens(vs)[1..] == LitTokens(vs[1..]);
      assert list == [LitToken(vs[0]), Comma] + tail;
      AtCur(ts, i, list, 0);
      AtCur(ts, i, list, 1);
      AtSplit(ts, i, [LitToken(vs[0]), Comma], tail);
      ParseValues(vs[1..], acc + [vs[0]], ts, i + 2);
      assert acc + [vs[0]] + vs[1..] == acc + vs;
    }
  }

  lemma ParseList(f: string, vs: seq<Literal>, neg: bool, ts: seq<Token>, i: nat)
    requires vs != [] && At(ts, i, [LParen] + (Join(LitTokens(vs), [Comma]) + [RParen]))
    ensures PIn(ts, i, f, neg) == Some((In(f, vs, neg), i + 2 + |Join(LitTokens(vs), [Comma])|))
  {
    hide Join, LitTokens, PValues;
    var list := Join(LitTokens(vs), [Comma]);
    AtCur(ts, i, [LParen] + (list + [RParen]), 0);
    AtSplit(ts, i, [LParen], list + [RParen]);
    AtSplit(ts, i + 1, list, [RParen]);
    AtCur(ts, i + 1 + |list|, [RParen], 0);
    ParseValues(vs, [], ts, i + 1);
    assert [] + vs == vs;
  }

  lemma ParseIn(f: string, vs: seq<Literal>, neg: bool, t: seq<Token>, ts: seq<Token>, i: nat)
    requires IsPredicate(t, In(f, vs, neg)) && At(ts, i, t)
    ensures PPredicate(ts, i) == Some((In(f, vs, neg), i + |t|))
  {
    hide Join, LitTokens, PIn, PValues;
    var head := [Ident(f)] + NotIf(neg) + [KwIn];
    var list := [LParen] + (Join(LitTokens(vs), [Comma]) + [RParen]);
    assert t == head + list;
    AtSplit(ts, i, head, list);
    ParseList(f, vs, neg, ts, i + |head|);
    AtCur(ts, i, head, 0);
    AtCur(ts, i, head, 1);
    if neg { AtCur(ts, i, head, 2); }
  }

  lemma {:induction false} ParsePredicates(t: seq<Token>, n: Node, ts: seq<Token>, i: nat)
    requires IsPredicate(t, n) && At(ts, i, t)
    ensures PPredicate(ts, i) == Some((n, i + |t|))
  {
    hide PIn;
    if n.In? {
      ParseIn(n.field, n.vals, n.negate, t, ts, i);
    } else {
      AtCur(ts, i, t, 0);
      AtCur(ts, i, t, 1);
      AtCur(ts, i, t, 2);
      if |t| > 3 { AtCur(ts, i, t, 3); }
      if |t| > 4 { AtCur(ts, i, t, 4); }
    }
  }

  /** The chaining level of the parser for a category. */
  function LevelOf(g: Category): Level { if g.OrExpr? then Ors else Ands }

  function PCategory(g: Category, ts: seq<Token>, i: nat): Option<(Node, nat)>
    requires i <= |ts|
  {
    if g.UnaryExpr? then PUnary(ts, i) else PLevel(LevelOf(g), ts, i)
  }

  lemma OperandIs(g: Category, ts: seq<Token>, i: nat)
    requires !g.UnaryExpr? && i <= |ts|
    ensures POperand(LevelOf(g), ts, i) == PCategory(g.Operand(), ts, i)
    ensures LevelOf(g).Token() == g.Separator() && LevelOf(g).Name() == g.Connective()
  {
  }

  /** The token after an expression does not continue it. */
  predicate Stops(g: Category, t: Token) {
    (g.AndExpr? ==> t != KwAnd) && (g.OrExpr? ==> t !in {KwAnd, KwOr})
  }

  lemma NotStep(a: Node, ts: seq<Token>, i: nat, j: nat)
    requires i < |ts| && ts[i] == KwNot && PCategory(UnaryExpr, ts, i + 1) == Some((a, j))
    ensures PCategory(UnaryExpr, ts, i) == Some((Not(a), j))
  {
  }

  lemma ParensStep(n: Node, ts: seq<Token>, i: nat, j: nat)
    requires i < |ts| && ts[i] == LParen && PCategory(OrExpr, ts, i + 1) == Some((n, j)) && Cur(ts, j) == RParen
    ensures PCategory(UnaryExpr, ts, i) == Some((n, j + 1))
  {
  }

  lemma PredicateStep(n: Node, ts: seq<Token>, i: nat, j: nat)
    requires i < |ts| && ts[i].Ident? && PPredicate(ts, i) == Some((n, j))
    ensures PCategory(UnaryExpr, ts, i) == Some((n, j))
  {
  }

  /** One operand, and then either the end of the chain or its tail. */
  lemma OperandStep(g: Category, n: Node, ts: seq<Token>, i: nat, j: nat)
    requires !g.UnaryExpr? && i <= |ts| && j <= |ts| && PCategory(g.Operand(), ts, i) == Some((n, j))
    ensures PCategory(g, ts, i) ==
            if Cur(ts, j) == g.Separator() then PTail(LevelOf(g), ts, j, [n]) else Some((n, j))
  {
    OperandIs(g, ts, i);
  }

  lemma TailStep(g: Category, n: Node, acc: seq<Node>, ts: seq<Token>, i: nat, j: nat)
    requires !g.UnaryExpr? && i < |ts| && j <= |ts| && ts[i] == g.Separator()
    requires PCategory(g.Operand(), ts, i + 1) == Some((n, j))
    ensures PTail(LevelOf(g), ts, i, acc) == PTail(LevelOf(g), ts, j, acc + [n])
  {
    OperandIs(g, ts, i + 1);
  }

  lemma TailEnd(g: Category, acc: seq<Node>, ts: seq<Token>, i: nat)
    requires !g.UnaryExpr? && i <= |ts| && Cur(ts, i) != g.Separator()
    ensures PTail(LevelOf(g), ts, i, acc) == Some((Logic(g.Connective(), acc), i))
  {
  }

  lemma ChainSplit(g: Category, t: seq<Token>, args: seq<Node>) returns (k: nat)
    requires !g.UnaryExpr? && DerivesChain(g, t, args) && |args| > 1
    ensures k < |t| && t[k] == g.Separator()
    ensures Derives(g.Operand(), t[..k], args[0]) && DerivesChain(g, t[k + 1..], args[1..])
  {
    k :| 0 <= k < |t| && t[k] == g.Separator()
         && Derives(g.Operand(), t[..k], args[0]) && DerivesChain(g, t[k + 1..], args[1..]);
  }

  /** A derived expression is parsed to its tree, wherever it stands. */
  lemma {:induction false} Complete(g: Category, t: seq<Token>, n: Node, ts: seq<Token>, i: nat)
    requires Derives(g, t, n) && At(ts, i, t) && Stops(g, Cur(ts, i + |t|))
    ensures PCategory(g, ts, i) == Some((n, i + |t|))
    decreases |t|, 2 * g.Rank() + 1
  {
    hide PCategory, PPredicate, PTail, IsPredicate, At, DerivesChain;
    AtInside(ts, i, t);
    if g.UnaryExpr? {
      if IsPredicate(t, n) {
        PredicateStart(t, n);
        AtCur(ts, i, t, 0);
        ParsePredicates(t, n, ts, i);
        PredicateStep(n, ts, i, i + |t|);
      } else if t[0] == KwNot {
        AtCur(ts, i, t, 0);
        AtRest(ts, i, t, 1);
        Complete(UnaryExpr, t[1..], n.arg, ts, i + 1);
        NotStep(n.arg, ts, i, i + |t|);
      } else {
        AtCur(ts, i, t, 0);
        AtCur(ts, i, t, |t| - 1);
        AtPart(ts, i, t, 1, |t| - 1);
        Complete(OrExpr, t[1..|t| - 1], n, ts, i + 1);
        ParensStep(n, ts, i, i + |t| - 1);
      }
    } else if Derives(g.Operand(), t, n) {
      Complete(g.Operand(), t, n, ts, i);
      OperandStep(g, n, ts, i, i + |t|);
    } else {
      ChainComplete(g, t, n.args, ts, i);
    }
  }

  lemma AtInside(ts: seq<Token>, i: nat, t: seq<Token>)
    requires At(ts, i, t)
    ensures i + |t| <= |ts|
  {
  }

  lemma {:induction false} ChainComplete(g: Category, t: seq<Token>, args: seq<Node>, ts: seq<Token>, i: nat)
    requires !g.UnaryExpr? && DerivesChain(g, t, args) && |args| >= 2 && At(ts, i, t) && Stops(g, Cur(ts, i + |t|))
    ensures PCategory(g, ts, i) == Some((Logic(g.Connective(), args), i + |t|))
    decreases |t|, 2 * g.Rank()
  {
    hide PCategory, PTail, At, Derives, DerivesChain;
    var k := ChainSplit(g, t, args);
    AtInside(ts, i, t);
    AtFirst(ts, i, t, k);
    AtRest(ts, i, t, k + 1);
    AtCur(ts, i, t, k);
    Complete(g.Operand(), t[..k], args[0], ts, i);
    OperandStep(g, args[0], ts, i, i + k);
    TailComplete(g, t[k + 1..], args[1..], [args[0]], ts, i + k);
    assert [args[0]] + args[1..] == args;
  }

  lemma PredicateStart(t: seq<Token>, n: Node)
    requires IsPredicate(t, n)
    ensures t != [] && t[0].Ident?
  {
  }

  lemma OneOperand(g: Category, t: seq<Token>, args: seq<Node>)
    requires !g.UnaryExpr? && DerivesChain(g, t, args) && |args| <= 1
    ensures |args| == 1 && Derives(g.Operand(), t, args[0])
  {
  }

  lemma {:induction false} TailComplete(g: Category, t: seq<Token>, args: seq<Node>, acc: seq<Node>,
                                        ts: seq<Token>, i: nat)
    requires !g.UnaryExpr? && DerivesChain(g, t, args) && i < |ts| && ts[i] == g.Separator()
    requires At(ts, i + 1, t) && Stops(g, Cur(ts, i + 1 + |t|))
    ensures PTail(LevelOf(g), ts, i, acc) == Some((Logic(g.Connective(), acc + args), i + 1 + |t|))
    decreases |t|, 2 * g.Rank()
  {
    hide PCategory, PTail, At, Derives, DerivesChain;
    AtInside(ts, i + 1, t);
    if |args| <= 1 {
      OneOperand(g, t, args);
      Complete(g.Operand(), t, args[0], ts, i + 1);
      TailStep(g, args[0], acc, ts, i, i + 1 + |t|);
      TailEnd(g, acc + [args[0]], ts, i + 1 + |t|);
      assert acc + args == acc + [args[0]];
    } else {
      var k := ChainSplit(g, t, args);
      AtFirst(ts, i + 1, t, k);
      AtRest(ts, i + 1, t, k + 1);
      AtCur(ts, i + 1, t, k);
      Complete(g.Operand(), t[..k], args[0], ts, i + 1);
      TailStep(g, args[0], acc, ts, i, i + 1 + k);
      TailComplete(g, t[k + 1..], args[1..], acc + [args[0]], ts, i + 1 + k);
      assert acc + [args[0]] + args[1..] == acc + args;
    }
  }

  // ---- the grammar derives what the parser accepts --------------------------------------------------------

  lemma ListCons(v: Literal, vs: seq<Literal>)
    ensures Join(LitTokens([v] + vs), [Comma]) ==
            if vs == [] then [LitToken(v)] else [LitToken(v), Comma] + Join(LitTokens(vs), [Comma])
  {
    assert ([v] + vs)[1..] == vs;
    JoinCons([LitToken(v)], LitTokens(vs), [Comma]);
  }

  lemma {:induction false} ValuesSound(ts: seq<Token>, i: nat, acc: seq<Literal>)
    requires i <= |ts|
    ensures var r := PValues(ts, i, acc);
            r.Some? ==>
              && |acc| < |r.value.0| && acc == r.value.0[..|acc|]
              && ts[i..r.value.1] == Join(LitTokens(r.value.0[|acc|..]), [Comma])
    decreases |ts| - i
  {
    hide Join, LitTokens;
    var r := PValues(ts, i, acc);
    if r.Some? {
      var v := PValue(ts, i).value.0;
      var vs, j := r.value.0, r.value.1;
      if Cur(ts, i + 1) == Comma {
        ValuesSound(ts, i + 2, acc + [v]);
        assert acc == (acc + [v])[..|acc|] == vs[..|acc|] && vs[|acc|] == (acc + [v])[|acc|];
        assert vs[|acc|..] == [v] + vs[|acc| + 1..];
        assert ts[i..j] == [LitToken(v), Comma] + ts[i + 2..j];
        ListCons(v, vs[|acc| + 1..]);
      } else {
        assert vs[|acc|..] == [v] + [];
        assert ts[i..j] == [LitToken(v)];
        ListCons(v, []);
      }
    }
  }

  lemma InSound(ts: seq<Token>, i: nat, f: string, neg: bool)
    requires i <= |ts|
    ensures var r := PIn(ts, i, f, neg);
            r.Some? ==> r.value.0.In? && r.value.0.field == f && r.value.0.negate == neg && r.value.0.vals != []
                        && ts[i..r.value.1] == [LParen] + Join(LitTokens(r.value.0.vals), [Comma]) + [RParen]
  {
    hide PValues, Join, LitTokens;
    var r := PIn(ts, i, f, neg);
    if r.Some? {
      ValuesSound(ts, i + 1, []);
      var j := r.value.1;
      assert r.value.0.vals[0..] == r.value.0.vals;
      assert ts[i] == LParen && ts[j - 1] == RParen && i + 1 <= j - 1;
      assert ts[i..j] == [ts[i]] + ts[i + 1..j - 1] + [ts[j - 1]];
    }
  }

  lemma InTestSound(ts: seq<Token>, i: nat, f: string, neg: bool)
    requires i < |ts| && ts[i] == KwIn
    ensures var r := PIn(ts, i + 1, f, neg);
            r.Some? ==> IsPredicate([Ident(f)] + NotIf(neg) + ts[i..r.value.1], r.value.0)
  {
    hide PIn, Join, LitTokens;
    var r := PIn(ts, i + 1, f, neg);
    if r.Some? {
      var j := r.value.1;
      InSound(ts, i + 1, f, neg);
      assert ts[i..j] == [KwIn] + ts[i + 1..j];
      var list := Join(LitTokens(r.value.0.vals), [Comma]);
      assert [Ident(f)] + NotIf(neg) + ([KwIn] + ([LParen] + list + [RParen])) ==
             [Ident(f)] + NotIf(neg) + [KwIn, LParen] + list + [RParen];
    }
  }

  lemma TestSound(ts: seq<Token>, i: nat, f: string, neg: bool)
    requires i <= |ts| && (neg ==> Cur(ts, i) in {KwIn, KwLike})
    ensures var r := PTest(ts, i, f, neg);
            r.Some? ==> IsPredicate([Ident(f)] + NotIf(neg) + ts[i..r.value.1], r.value.0)
  {
    hide PIn;
    if Cur(ts, i) == KwIn {
      hide IsPredicate;
      InTestSound(ts, i, f, neg);
    } else {
      hide Join, LitTokens;
    }
  }

  lemma PredicateSound(ts: seq<Token>, i: nat)
    requires i <= |ts|
    ensures var r := PPredicate(ts, i); r.Some? ==> IsPredicate(ts[i..r.value.1], r.value.0)
  {
    hide PTest, IsPredicate;
    var r := PPredicate(ts, i);
    if r.Some? {
      var neg := Cur(ts, i + 1) == KwNot;
      var k := if neg then i + 2 else i + 1;
      TestSound(ts, k, ts[i].text, neg);
      assert ts[i..r.value.1] == [Ident(ts[i].text)] + NotIf(neg) + ts[k..r.value.1];
    }
  }

  /** What the parser returns at i is derived by the tokens it consumed. */
  lemma {:induction false} Sound(g: Category, ts: seq<Token>, i: nat)
    requires i <= |ts|
    ensures var r := PCategory(g, ts, i); r.Some? ==> i < r.value.1 <= |ts| && Derives(g, ts[i..r.value.1], r.value.0)
    decreases |ts| - i, 2 * g.Rank() + 1
  {
    hide PPredicate, PTail, IsPredicate;
    var r := PCategory(g, ts, i);
    if r.Some? {
      var n, j := r.value.0, r.value.1;
      if g.UnaryExpr? {
        if Cur(ts, i) == KwNot {
          Sound(UnaryExpr, ts, i + 1);
          assert ts[i..j][1..] == ts[i + 1..j];
        } else if Cur(ts, i) == LParen {
          Sound(OrExpr, ts, i + 1);
          assert ts[i..j][1..j - i - 1] == ts[i + 1..j - 1];
        } else {
          PredicateSound(ts, i);
        }
      } else {
        OperandIs(g, ts, i);
        Sound(g.Operand(), ts, i);
        var k := POperand(LevelOf(g), ts, i).value.1;
        if Cur(ts, k) == g.Separator() {
          var left := POperand(LevelOf(g), ts, i).value.0;
          TailSound(g, ts, k, [left]);
          ChainGrows(g, ts, i, k, j, left, n.args[1..]);
          assert n.args == [left] + n.args[1..];
        }
      }
    }
  }

  lemma ChainGrows(g: Category, ts: seq<Token>, i: nat, k: nat, j: nat, left: Node, more: seq<Node>)
    requires !g.UnaryExpr? && i <= k < j <= |ts| && ts[k] == g.Separator() && Derives(g.Operand(), ts[i..k], left)
    requires more != [] && DerivesChain(g, ts[k + 1..j], more)
    ensures DerivesChain(g, ts[i..j], [left] + more)
  {
    var t, args := ts[i..j], [left] + more;
    assert args[1..] == more && t[k - i] == ts[k];
    assert t[..k - i] == ts[i..k] && t[k - i + 1..] == ts[k + 1..j];
  }

  lemma {:induction false} TailSound(g: Category, ts: seq<Token>, i: nat, acc: seq<Node>)
    requires !g.UnaryExpr? && i <= |ts|
    ensures var r := PTail(LevelOf(g), ts, i, acc);
            r.Some? ==>
              && i <= r.value.1 <= |ts| && r.value.0.Logic? && r.value.0.op == g.Connective()
              && acc <= r.value.0.args
              && if Cur(ts, i) == g.Separator() then
                   && |acc| < |r.value.0.args| && i < r.value.1
                   && DerivesChain(g, ts[i + 1..r.value.1], r.value.0.args[|acc|..])
                 else r.value.1 == i && r.value.0.args == acc
    decreases |ts| - i, 0
  {
    hide PCategory, PTail, Derives, DerivesChain;
    var r := PTail(LevelOf(g), ts, i, acc);
    if Cur(ts, i) != g.Separator() {
      TailEnd(g, acc, ts, i);
    } else if r.Some? {
      TailOperand(g, ts, i, acc);
      Sound(g.Operand(), ts, i + 1);
      var (right, k) := PCategory(g.Operand(), ts, i + 1).value;
      TailStep(g, right, acc, ts, i, k);
      TailSound(g, ts, k, acc + [right]);
      var args, j := r.value.0.args, r.value.1;
      assert acc == (acc + [right])[..|acc|] == args[..|acc|] && args[|acc|] == (acc + [right])[|acc|];
      if Cur(ts, k) == g.Separator() {
        ChainGrows(g, ts, i + 1, k, j, right, args[|acc| + 1..]);
        assert args[|acc|..] == [right] + args[|acc| + 1..];
      } else {
        OneGrows(g, ts[i + 1..j], right);
        assert args[|acc|..] == [right];
      }
    }
  }

  lemma TailOperand(g: Category, ts: seq<Token>, i: nat, acc: seq<Node>)
    requires !g.UnaryExpr? && i < |ts| && ts[i] == g.Separator() && PTail(LevelOf(g), ts, i, acc).Some?
    ensures PCategory(g.Operand(), ts, i + 1).Some?
  {
    OperandIs(g, ts, i + 1);
  }

  lemma OneGrows(g: Category, t: seq<Token>, n: Node)
    requires !g.UnaryExpr? && Derives(g.Operand(), t, n)
    ensures DerivesChain(g, t, [n])
  {
  }

  // ---- the parser is the grammar --------------------------------------------------------------------------

  lemma {:induction false} NoEof(g: Category, t: seq<Token>, n: Node)
    requires Derives(g, t, n)
    ensures EOF !in t
    decreases |t|, 2 * g.Rank() + 1
  {
    hide IsPredicate;
    if g.UnaryExpr? {
      if IsPredicate(t, n) {
        PredicateNoEof(t, n);
      } else if t[0] == KwNot {
        NoEof(UnaryExpr, t[1..], n.arg);
        assert t == [t[0]] + t[1..];
      } else {
        NoEof(OrExpr, t[1..|t| - 1], n);
        assert t == [LParen] + t[1..|t| - 1] + [RParen];
      }
    } else if Derives(g.Operand(), t, n) {
      NoEof(g.Operand(), t, n);
    } else {
      ChainNoEof(g, t, n.args);
    }
  }

  lemma {:induction false} ChainNoEof(g: Category, t: seq<Token>, args: seq<Node>)
    requires !g.UnaryExpr? && DerivesChain(g, t, args)
    ensures EOF !in t
    decreases |t|, 2 * g.Rank()
  {
    if |args| == 1 {
      NoEof(g.Operand(), t, args[0]);
    } else {
      var k :| 0 <= k < |t| && t[k] == g.Separator()
               && Derives(g.Operand(), t[..k], args[0]) && DerivesChain(g, t[k + 1..], args[1..]);
      NoEof(g.Operand(), t[..k], args[0]);
      ChainNoEof(g, t[k + 1..], args[1..]);
      assert t == t[..k] + [t[k]] + t[k + 1..];
    }
  }

  lemma PredicateNoEof(t: seq<Token>, n: Node)
    requires IsPredicate(t, n)
    ensures EOF !in t
  {
    if n.In? { ListNoEof(n.vals); }
  }

  lemma {:induction false} ListNoEof(vs: seq<Literal>)
    ensures EOF !in Join(LitTokens(vs), [Comma])
  {
    if vs != [] {
      JoinCons([LitToken(vs[0])], LitTokens(vs[1..]), [Comma]);
      ListNoEof(vs[1..]);
    }
  }

  /** On a closed token list the parser's answer is what the grammar derives. */
  lemma TokensIff(t: seq<Token>, n: Node)
    requires EOF !in t
    ensures var r := PLevel(Ors, t + [EOF], 0);
            (r.Some? && r.value.0 == n && Cur(t + [EOF], r.value.1) == EOF) <==> Derives(OrExpr, t, n)
  {
    hide PLevel, Derives;
    var ts := t + [EOF];
    var r := PLevel(Ors, ts, 0);
    Sound(OrExpr, ts, 0);
    if r.Some? && Cur(ts, r.value.1) == EOF {
      var j := r.value.1;
      if j == |ts| {
        assert ts[0..j][|t|] == EOF;
        NoEof(OrExpr, ts[0..j], r.value.0);
      }
      assert ts[0..|t|] == t;
    }
    if Derives(OrExpr, t, n) {
      assert ts[0..0 + |t|] == t;
      Complete(OrExpr, t, n, ts, 0);
    }
  }

  /** The end marker closes every token list and stands nowhere else. */
  lemma {:induction false} EofIsLast(cc: Classes, text: string)
    ensures Lex(cc, text).Some? ==>
              var ts := Lex(cc, text).value;
              ts != [] && forall i :: 0 <= i < |ts| ==> (ts[i] == EOF <==> i == |ts| - 1)
    decreases |text|
  {
    hide Next;
    NextShrinks(cc, text);
    var r := Next(cc, text);
    if r.Got? && r.tok != EOF { EofIsLast(cc, r.rest); }
  }

  /**
   * Rule text to tree: the parser accepts exactly the texts whose longest-lexeme tokens derive an
   * expression, and returns the tree of that derivation.
   */
  lemma ParseIff(cc: Classes, text: string, n: Node)
    requires cc.Sane()
    ensures Parse(cc, text) == Some(n) <==> exists t :: Lexes(cc, text, t) && Derives(OrExpr, t, n)
  {
    hide Lex, PLevel, Derives, Lexes;
    EofIsLast(cc, text);
    if Lex(cc, text).Some? {
      var ts := Lex(cc, text).value;
      var t := ts[..|ts| - 1];
      assert ts == t + [EOF];
      LexIff(cc, text, t);
      TokensIff(t, n);
    }
    forall t | Lexes(cc, text, t) ensures Lex(cc, text) == Some(t + [EOF]) { LexIff(cc, text, t); }
    if t :| Lexes(cc, text, t) && Derives(OrExpr, t, n) {
      NoEof(OrExpr, t, n);
      TokensIff(t, n);
    }
  }

  /** A token list has at most one tree. */
  lemma Unambiguous(t: seq<Token>, n: Node, n': Node)
    requires Derives(OrExpr, t, n) && Derives(OrExpr, t, n')
    ensures n == n'
  {
    NoEof(OrExpr, t, n);
    TokensIff(t, n);
    TokensIff(t, n');
  }
}
