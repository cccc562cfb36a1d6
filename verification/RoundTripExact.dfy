/**
 * The other half of the round trip: a tree that survives print-then-parse is clean. Every tree
 * the parser returns is well shaped and lists the quoted texts of its tokens in order, while a
 * text with an unescaped quote or backslash is read back differently.
 */
module RoundTripExact {
  import opened Prelude
  import opened Ir
  import opened Lexer
  import opened Parser
  import opened Grammar
  import opened Printer
  import opened RoundTrip

  // ---- the string literals of a tree and of a token list, in order --------------------------

  function Texts(ts: seq<Token>): seq<string> {
    if ts == [] then [] else (if ts[0].Quoted? then [ts[0].text] else []) + Texts(ts[1..])
  }

  lemma {:induction false} TextsConcat(a: seq<Token>, b: seq<Token>)
    ensures Texts(a + b) == Texts(a) + Texts(b)
  {
    if a == [] {
      assert a + b == b;
    } else {
      assert (a + b)[1..] == a[1..] + b;
      TextsConcat(a[1..], b);
    }
  }

  function LitTexts(vs: seq<Literal>): seq<string> {
    if vs == [] then [] else (if vs[0].Str? then [vs[0].text] else []) + LitTexts(vs[1..])
  }

  lemma {:induction false} LitTextsConcat(a: seq<Literal>, b: seq<Literal>)
    ensures LitTexts(a + b) == LitTexts(a) + LitTexts(b)
  {
    if a == [] {
      assert a + b == b;
    } else {
      assert (a + b)[1..] == a[1..] + b;
      LitTextsConcat(a[1..], b);
    }
  }

  function Strings(n: Node): seq<string>
    decreases n, 1
  {
    match n
    case Logic(_, args) => ArgStrings(args)
    case Compare(_, _, v) => LitTexts([v])
    case Between(_, lo, hi) => LitTexts([lo]) + LitTexts([hi])
    case In(_, vs, _) => LitTexts(vs)
    case Like(_, p, _) => [p]
    case IsNull(_, _) => []
    case Not(a) => Strings(a)
  }

  function ArgStrings(args: seq<Node>): seq<string>
    decreases args, 0
  {
    if args == [] then [] else Strings(args[0]) + ArgStrings(args[1..])
  }

  lemma {:induction false} ArgStringsConcat(a: seq<Node>, b: seq<Node>)
    ensures ArgStrings(a + b) == ArgStrings(a) + ArgStrings(b)
  {
    if a == [] {
      assert a + b == b;
    } else {
      assert (a + b)[1..] == a[1..] + b;
      ArgStringsConcat(a[1..], b);
    }
  }

  // ---- what the lexer can produce ------------------------------------------------------------

  predicate TokenOk(cc: Classes, t: Token) {
    && (t.Ident? ==> IsName(cc, t.text))
    && (t.Number? ==> IsNumber(cc, t.text))
    && (t.Op? ==> t.text in OPERATORS)
  }

  lemma PrefixAll(p: char -> bool, s: string)
    ensures forall c :: c in s[..Span(p, s)] ==> p(c)
  {
    SpanMaximal(p, s);
  }

  lemma WordOk(cc: Classes, w: string)
    requires w != "" && cc.IdentStart(w[0]) && forall c :: c in w ==> cc.IdentPart(c)
    ensures TokenOk(cc, WordToken(w))
  {
  }

  lemma NextOk(cc: Classes, text: string)
    ensures var r := Next(cc, text); r.Got? ==> TokenOk(cc, r.tok)
  {
    hide WordToken, IsName, IsNumber;
    var s := text[Span(cc.space, text)..];
    if s != "" {
      BodyShrinks(s[0], s[1..]);
      if cc.digit(s[0]) {
        PrefixAll(cc.NumPart, s);
        NumberOk(cc, s[..Span(cc.NumPart, s)]);
      } else if cc.IdentStart(s[0]) {
        PrefixAll(cc.IdentPart, s);
        WordOk(cc, s[..Span(cc.IdentPart, s)]);
      }
    }
  }

  lemma NumberOk(cc: Classes, t: string)
    requires t != "" && cc.digit(t[0]) && forall c :: c in t ==> cc.NumPart(c)
    ensures TokenOk(cc, Number(t))
  {
  }

  lemma {:induction false} LexOk(cc: Classes, text: string)
    ensures Lex(cc, text).Some? ==> forall t :: t in Lex(cc, text).value ==> TokenOk(cc, t)
    decreases |text|
  {
    hide Next, TokenOk;
    NextOk(cc, text);
    NextShrinks(cc, text);
    var r := Next(cc, text);
    if r.Got? && r.tok != EOF { LexOk(cc, r.rest); }
    assert TokenOk(cc, EOF) by { EofOk(cc); }
  }

  lemma EofOk(cc: Classes)
    ensures TokenOk(cc, EOF)
  {
  }

  // ---- what the parser can produce -----------------------------------------------------------

  ghost predicate AllOk(cc: Classes, ts: seq<Token>) { forall t :: t in ts ==> TokenOk(cc, t) }

  /** A parse of ts[i..j] giving n is faithful: n is well shaped and keeps the quoted texts. */
  ghost predicate Faithful(cc: Classes, ts: seq<Token>, i: nat, r: Option<(Node, nat)>) {
    r.Some? ==>
      && i <= r.value.1 <= |ts|
      && Shaped(cc, r.value.0, 2)
      && Strings(r.value.0) == Texts(ts[i..r.value.1])
  }

  lemma Slices(ts: seq<Token>, i: nat, j: nat, k: nat)
    requires i <= j <= k <= |ts|
    ensures Texts(ts[i..k]) == Texts(ts[i..j]) + Texts(ts[j..k])
  {
    assert ts[i..k] == ts[i..j] + ts[j..k];
    TextsConcat(ts[i..j], ts[j..k]);
  }

  lemma OneText(ts: seq<Token>, i: nat)
    requires i < |ts|
    ensures Texts(ts[i..i + 1]) == if ts[i].Quoted? then [ts[i].text] else []
  {
    assert ts[i..i + 1] == [ts[i]];
    assert Texts([ts[i]]) == (if ts[i].Quoted? then [ts[i].text] else []) + Texts([]);
  }

  lemma ValueFaithful(cc: Classes, ts: seq<Token>, i: nat)
    requires AllOk(cc, ts) && i <= |ts|
    ensures var r := PValue(ts, i);
            r.Some? ==> ShapedLit(cc, r.value.0) && Texts(ts[i..i + 1]) == LitTexts([r.value.0])
  {
    if PValue(ts, i).Some? {
      OneText(ts, i);
      var v := PValue(ts, i).value.0;
      assert LitTexts([v]) == (if v.Str? then [v.text] else []) + LitTexts([]);
      assert TokenOk(cc, ts[i]);
    }
  }

  lemma {:induction false} ValuesFaithful(cc: Classes, ts: seq<Token>, i: nat, acc: seq<Literal>)
    requires AllOk(cc, ts) && i <= |ts| && forall v :: v in acc ==> ShapedLit(cc, v)
    ensures var r := PValues(ts, i, acc);
            r.Some? ==> r.value.0 != [] && (forall v :: v in r.value.0 ==> ShapedLit(cc, v))
                        && LitTexts(r.value.0) == LitTexts(acc) + Texts(ts[i..r.value.1])
    decreases |ts| - i
  {
    hide ShapedLit, TokenOk, Texts, LitTexts, AllOk;
    ValueFaithful(cc, ts, i);
    if PValue(ts, i).Some? {
      var v := PValue(ts, i).value.0;
      LitTextsConcat(acc, [v]);
      if Cur(ts, i + 1) == Comma {
        ValuesFaithful(cc, ts, i + 2, acc + [v]);
        var r := PValues(ts, i + 2, acc + [v]);
        if r.Some? {
          Slices(ts, i, i + 1, r.value.1);
          Slices(ts, i + 1, i + 2, r.value.1);
          OneText(ts, i + 1);
          assert Texts(ts[i..r.value.1]) == LitTexts([v]) + Texts(ts[i + 2..r.value.1]);
        }
      }
    }
  }

  lemma TestFaithful(cc: Classes, ts: seq<Token>, i: nat, f: string, neg: bool)
    requires AllOk(cc, ts) && i <= |ts| && IsName(cc, f)
    ensures Faithful(cc, ts, i, PTest(ts, i, f, neg))
  {
    hide PBetween, PIn, PIs, IsName, ShapedLit, TokenOk, Texts;
    if i < |ts| { OneText(ts, i); }
    match Cur(ts, i)
    case Op(op) => CompareFaithful(cc, ts, i, f, op);
    case KwBetween => BetweenFaithful(cc, ts, i, f);
    case KwIn => InFaithful(cc, ts, i, f, neg);
    case KwLike =>
      if Cur(ts, i + 1).Quoted? {
        Slices(ts, i, i + 1, i + 2);
        OneText(ts, i + 1);
      }
    case KwIs => IsFaithful(cc, ts, i, f);
    case _ =>
  }

  lemma CompareFaithful(cc: Classes, ts: seq<Token>, i: nat, f: string, op: string)
    requires AllOk(cc, ts) && i < |ts| && ts[i] == Op(op) && IsName(cc, f)
    ensures var r := PValue(ts, i + 1);
            r.Some? ==> Faithful(cc, ts, i, Some((Compare(f, op, r.value.0), r.value.1)))
  {
    hide IsName, ShapedLit, TokenOk, Texts;
    OneText(ts, i);
    ValueFaithful(cc, ts, i + 1);
    OpOk(cc, op);
    if PValue(ts, i + 1).Some? { Slices(ts, i, i + 1, i + 2); }
  }

  lemma OpOk(cc: Classes, op: string)
    ensures TokenOk(cc, Op(op)) ==> op in OPERATORS
  {
  }

  lemma BetweenFaithful(cc: Classes, ts: seq<Token>, i: nat, f: string)
    requires AllOk(cc, ts) && i < |ts| && ts[i] == KwBetween && IsName(cc, f)
    ensures Faithful(cc, ts, i, PBetween(ts, i + 1, f))
  {
    hide IsName, ShapedLit, TokenOk;
    OneText(ts, i);
    ValueFaithful(cc, ts, i + 1);
    if PBetween(ts, i + 1, f).Some? {
      ValueFaithful(cc, ts, i + 3);
      OneText(ts, i + 2);
      Slices(ts, i, i + 1, i + 4);
      Slices(ts, i + 1, i + 2, i + 4);
      Slices(ts, i + 2, i + 3, i + 4);
    }
  }

  lemma InFaithful(cc: Classes, ts: seq<Token>, i: nat, f: string, neg: bool)
    requires AllOk(cc, ts) && i < |ts| && ts[i] == KwIn && IsName(cc, f)
    ensures Faithful(cc, ts, i, PIn(ts, i + 1, f, neg))
  {
    hide IsName, ShapedLit, TokenOk, PValues, Texts, AllOk;
    OneText(ts, i);
    var r := PIn(ts, i + 1, f, neg);
    if r.Some? {
      var j := r.value.1;
      ValuesFaithful(cc, ts, i + 2, []);
      OneText(ts, i + 1);
      OneText(ts, j - 1);
      Slices(ts, i, i + 1, j);
      Slices(ts, i + 1, i + 2, j);
      Slices(ts, i + 2, j - 1, j);
    }
  }

  lemma IsFaithful(cc: Classes, ts: seq<Token>, i: nat, f: string)
    requires i < |ts| && ts[i] == KwIs && IsName(cc, f)
    ensures Faithful(cc, ts, i, PIs(ts, i + 1, f))
  {
    hide IsName, Texts;
    var r := PIs(ts, i + 1, f);
    if r.Some? {
      forall t | t in ts[i..r.value.1] ensures !t.Quoted? {
        var k :| i <= k < r.value.1 && ts[k] == t;
      }
      NoQuoted(ts[i..r.value.1]);
    }
  }

  lemma PredicateFaithful(cc: Classes, ts: seq<Token>, i: nat)
    requires AllOk(cc, ts) && i <= |ts|
    ensures Faithful(cc, ts, i, PPredicate(ts, i))
  {
    hide PTest, Shaped, IsName, Texts;
    var r := PPredicate(ts, i);
    if r.Some? {
      assert TokenOk(cc, ts[i]);
      OneText(ts, i);
      var neg := Cur(ts, i + 1) == KwNot;
      var j := if neg then i + 2 else i + 1;
      TestFaithful(cc, ts, j, ts[i].text, neg);
      Slices(ts, i, i + 1, r.value.1);
      if neg {
        OneText(ts, i + 1);
        Slices(ts, i + 1, i + 2, r.value.1);
      }
    }
  }

  lemma NotFaithful(cc: Classes, ts: seq<Token>, i: nat, r: Option<(Node, nat)>)
    requires i < |ts| && ts[i] == KwNot && Faithful(cc, ts, i + 1, r) && r.Some?
    ensures Faithful(cc, ts, i, Some((Not(r.value.0), r.value.1)))
  {
    hide Texts;
    OneText(ts, i);
    Slices(ts, i, i + 1, r.value.1);
  }

  lemma GroupFaithful(cc: Classes, ts: seq<Token>, i: nat, r: Option<(Node, nat)>)
    requires i < |ts| && ts[i] == LParen && Faithful(cc, ts, i + 1, r) && r.Some?
    requires Cur(ts, r.value.1) == RParen
    ensures Faithful(cc, ts, i, Some((r.value.0, r.value.1 + 1)))
  {
    hide Texts, Shaped;
    var j := r.value.1;
    OneText(ts, i);
    OneText(ts, j);
    Slices(ts, i, i + 1, j + 1);
    Slices(ts, i + 1, j, j + 1);
  }

  lemma NothingFaithful(cc: Classes, ts: seq<Token>, i: nat)
    ensures Faithful(cc, ts, i, None)
  {
  }

  lemma {:induction false} UnaryFaithful(cc: Classes, ts: seq<Token>, i: nat)
    requires AllOk(cc, ts) && i <= |ts|
    ensures Faithful(cc, ts, i, PUnary(ts, i))
    decreases |ts| - i, 0
  {
    hide PPredicate, PLevel, AllOk, Faithful;
    var r := PUnary(ts, i);
    if r.None? {
      NothingFaithful(cc, ts, i);
    } else {
      if Cur(ts, i) == KwNot {
        UnaryFaithful(cc, ts, i + 1);
        NotFaithful(cc, ts, i, PUnary(ts, i + 1));
      } else if Cur(ts, i) == LParen {
        LevelFaithful(cc, Ors, ts, i + 1);
        GroupFaithful(cc, ts, i, PLevel(Ors, ts, i + 1));
      } else {
        PredicateFaithful(cc, ts, i);
      }
    }
  }

  lemma {:induction false} OperandFaithful(cc: Classes, lv: Level, ts: seq<Token>, i: nat)
    requires AllOk(cc, ts) && i <= |ts|
    ensures Faithful(cc, ts, i, POperand(lv, ts, i))
    decreases |ts| - i, if lv.Ors? then 3 else 1
  {
    if lv.Ors? { LevelFaithful(cc, Ands, ts, i); } else { UnaryFaithful(cc, ts, i); }
  }

  lemma {:induction false} LevelFaithful(cc: Classes, lv: Level, ts: seq<Token>, i: nat)
    requires AllOk(cc, ts) && i <= |ts|
    ensures Faithful(cc, ts, i, PLevel(lv, ts, i))
    decreases |ts| - i, if lv.Ors? then 4 else 2
  {
    hide POperand, PTail, AllOk, Texts;
    OperandFaithful(cc, lv, ts, i);
    var first := POperand(lv, ts, i);
    if first.Some? && Cur(ts, first.value.1) == lv.Token() {
      var left, j := first.value.0, first.value.1;
      assert ArgStrings([left]) == Strings(left) + ArgStrings([]) == Strings(left);
      TailFaithful(cc, lv, ts, j, [left]);
      var r := PTail(lv, ts, j, [left]);
      if r.Some? { Slices(ts, i, j, r.value.1); }
    }
  }

  lemma {:induction false} TailFaithful(cc: Classes, lv: Level, ts: seq<Token>, i: nat, acc: seq<Node>)
    requires AllOk(cc, ts) && i <= |ts| && (forall a :: a in acc ==> Shaped(cc, a, 2))
    requires |acc| >= 2 || (|acc| == 1 && Cur(ts, i) == lv.Token())
    ensures var r := PTail(lv, ts, i, acc);
            r.Some? ==> Shaped(cc, r.value.0, 2) && Strings(r.value.0) == ArgStrings(acc) + Texts(ts[i..r.value.1])
    decreases |ts| - i, 0
  {
    hide POperand, AllOk, Texts, TokenOk;
    if Cur(ts, i) != lv.Token() {
      NoTexts(ts, i);
    } else {
      OperandFaithful(cc, lv, ts, i + 1);
      var p := POperand(lv, ts, i + 1);
      if p.Some? {
        var right, j := p.value.0, p.value.1;
        TailFaithful(cc, lv, ts, j, acc + [right]);
        ArgStringsConcat(acc, [right]);
        assert ArgStrings([right]) == Strings(right) + ArgStrings([]) == Strings(right);
        var r := PTail(lv, ts, j, acc + [right]);
        if r.Some? {
          OneText(ts, i);
          Slices(ts, i, i + 1, r.value.1);
          Slices(ts, i + 1, j, r.value.1);
        }
      }
    }
  }

  lemma NoTexts(ts: seq<Token>, i: nat)
    requires i <= |ts|
    ensures Texts(ts[i..i]) == []
  {
  }

  /** Every tree the parser returns is well shaped, and its strings are the quoted texts of its tokens. */
  lemma ParsedIsShaped(cc: Classes, s: string, n: Node)
    requires Parse(cc, s) == Some(n)
    ensures Shaped(cc, n, 2) && Strings(n) == Texts(Lex(cc, s).value)
  {
    hide Lex, PLevel, Shaped, TokenOk, Texts;
    var ts := Lex(cc, s).value;
    LexOk(cc, s);
    LevelFaithful(cc, Ors, ts, 0);
    var j := PLevel(Ors, ts, 0).value.1;
    EofIsLast(cc, s);
    Slices(ts, 0, j, |ts|);
    NoQuoted(ts[j..]);
    assert ts[0..|ts|] == ts && ts[j..|ts|] == ts[j..];
  }

  // ---- unescaped quotes and backslashes are read back differently ------------------------------

  ghost predicate Backslashes(b: string) {
    b != "" && forall i :: 0 <= i < |b| ==> b[i] == '\\'
  }

  /** A reader that has fallen behind a run of backslashes never catches up. */
  lemma {:induction false} BodyLags(b: string, w: string, rest: string)
    requires Backslashes(b)
    ensures var r := Body('\'', w + ("'" + rest)); r.Got? ==> r.tok != Quoted(b + w)
    decreases |w|
  {
    var s := w + ("'" + rest);
    assert (b + w)[0] == '\\' && s[0] == if w == "" then '\'' else w[0];
    if w != "" && w[0] == '\\' {
      if |w| > 1 && w[1] == '\\' {
        assert s[1] == '\\' && s[2..] == w[2..] + ("'" + rest);
        var b' := b[1..] + w[..2];
        assert Backslashes(b');
        BodyLags(b', w[2..], rest);
        assert (b + w)[1..] == b' + w[2..];
        var r, r' := Body('\'', s), Body('\'', s[2..]);
        if r.Got? { assert r.tok.text[1..] == r'.tok.text; }
      } else if |w| > 1 {
        assert s[1] == w[1];
      }
    }
  }

  lemma {:induction false} DirtyBody(w: string, rest: string)
    requires !QuietText(w)
    ensures var r := Body('\'', w + ("'" + rest)); r.Got? ==> r.tok != Quoted(w)
  {
    var s := w + ("'" + rest);
    if w[0] == '\\' {
      if |w| > 1 && w[1] == '\\' {
        assert s[1] == '\\' && s[2..] == w[2..] + ("'" + rest);
        BodyLags("\\", w[2..], rest);
        assert w == [w[0]] + ("\\" + w[2..]);
      } else if |w| > 1 {
        assert s[1] == w[1];
      }
    } else if w[0] != '\'' {
      assert s[0] == w[0] && s[1..] == w[1..] + ("'" + rest);
      DirtyBody(w[1..], rest);
      assert [w[0]] + w[1..] == w;
    }
  }

  /** The text cannot be lexed, or its quoted texts do not start with strs. */
  ghost predicate Misread(cc: Classes, text: string, strs: seq<string>) {
    var o := Lex(cc, text);
    o.Some? ==> !(strs <= Texts(o.value))
  }

  lemma PrefixShorter(a: seq<string>, b: seq<string>, c: seq<string>)
    ensures a + b <= c ==> a <= c
  {
    if a + b <= c { assert a == c[..|a + b|][..|a|]; }
  }

  lemma PrefixTail(a: seq<string>, b: seq<string>, c: seq<string>)
    ensures a + b <= a + c ==> b <= c
  {
    if a + b <= a + c { assert b == (a + c)[..|a| + |b|][|a|..] == c[..|b|]; }
  }

  lemma MisreadMore(cc: Classes, text: string, strs: seq<string>, more: seq<string>)
    requires Misread(cc, text, strs)
    ensures Misread(cc, text, strs + more)
  {
    hide Lex, Texts;
    var o := Lex(cc, text);
    if o.Some? { PrefixShorter(strs, more, Texts(o.value)); }
  }

  lemma MisreadAfter(cc: Classes, text: string, toks: seq<Token>, rest: string, strs: seq<string>)
    requires Lex(cc, text) == Prepend(toks, Lex(cc, rest)) && Misread(cc, rest, strs)
    ensures Misread(cc, text, Texts(toks) + strs)
  {
    hide Lex, Texts;
    var o := Lex(cc, rest);
    if o.Some? {
      TextsConcat(toks, o.value);
      PrefixTail(Texts(toks), strs, Texts(o.value));
    }
  }

  lemma NextQuoted(cc: Classes, s: string)
    requires cc.Sane()
    ensures Next(cc, "'" + s) == Body('\'', s)
  {
    var text := "'" + s;
    assert '\'' in PUNCTUATION && Span(cc.space, text) == 0 && text[0..] == text;
    assert text[1..] == s;
  }

  lemma DirtyQuoted(cc: Classes, w: string, rest: string)
    requires cc.Sane() && !QuietText(w)
    ensures Misread(cc, "'" + (w + ("'" + rest)), [w])
  {
    hide Body, QuietText, Next;
    var s := w + ("'" + rest);
    var text := "'" + s;
    NextQuoted(cc, s);
    DirtyBody(w, rest);
    BodyShrinks('\'', s);
    var r := Next(cc, text);
    if r.Got? {
      LexStep(cc, text, r.tok, r.rest);
      if Lex(cc, r.rest).Some? {
        assert Lex(cc, text).value == [r.tok] + Lex(cc, r.rest).value;
        assert Texts(Lex(cc, text).value)[0] == r.tok.text;
      }
    }
  }

  lemma DirtyLiteral(cc: Classes, v: Literal, rest: string)
    requires cc.Sane() && !QuietLit(v)
    ensures Misread(cc, SqlVal(v) + rest, LitTexts([v]))
  {
    assert "'" + v.text + "'" + rest == "'" + (v.text + ("'" + rest));
    DirtyQuoted(cc, v.text, rest);
    assert LitTexts([v]) == [v.text] + LitTexts([]) == [v.text];
  }

  lemma LitTokenText(v: Literal)
    ensures Texts([LitToken(v)]) == LitTexts([v])
  {
    assert Texts([LitToken(v)]) == (if v.Str? then [v.text] else []) + Texts([]);
    assert LitTexts([v]) == (if v.Str? then [v.text] else []) + LitTexts([]);
  }

  lemma TwoTexts(a: Token, b: Token)
    requires !b.Quoted?
    ensures Texts([a, b]) == Texts([a])
  {
    assert [a, b] == [a] + [b];
    TextsConcat([a], [b]);
    assert Texts([b]) == [] + Texts([]);
  }

  lemma NoQuoted(toks: seq<Token>)
    requires forall t :: t in toks ==> !t.Quoted?
    ensures Texts(toks) == []
  {
  }

  /** A dirty string right after a head that carries none. */
  lemma DirtyAfter(cc: Classes, text: string, toks: seq<Token>, rest: string, strs: seq<string>)
    requires Lex(cc, text) == Prepend(toks, Lex(cc, rest)) && Misread(cc, rest, strs)
    requires forall t :: t in toks ==> !t.Quoted?
    ensures Misread(cc, text, strs)
  {
    hide Lex, Misread;
    MisreadAfter(cc, text, toks, rest, strs);
    NoQuoted(toks);
    assert [] + strs == strs;
  }

  lemma DirtyCompare(cc: Classes, f: string, op: string, v: Literal, rest: string)
    requires cc.Sane() && IsName(cc, f) && op in OPERATORS && !QuietLit(v)
    ensures Misread(cc, Sql(Compare(f, op, v)) + rest, LitTexts([v]))
  {
    hide Lex, Misread, SqlVal, IsName, QuietLit;
    var s := SqlVal(v) + rest;
    assert Sql(Compare(f, op, v)) + rest == f + " " + op + " " + s;
    DirtyLiteral(cc, v, rest);
    HeadCompare(cc, f, op, s);
    DirtyAfter(cc, f + " " + op + " " + s, [Ident(f), Op(op)], s, LitTexts([v]));
  }

  lemma DirtyBetween(cc: Classes, f: string, lo: Literal, hi: Literal, rest: string)
    requires cc.Sane() && IsName(cc, f) && ShapedLit(cc, lo) && !(QuietLit(lo) && QuietLit(hi))
    ensures Misread(cc, Sql(Between(f, lo, hi)) + rest, LitTexts([lo]) + LitTexts([hi]))
  {
    hide Lex, Misread, SqlVal, IsName, QuietLit, ShapedLit, LitTexts;
    var s2 := SqlVal(hi) + rest;
    var s1 := SqlVal(lo) + (" AND " + s2);
    var strs := LitTexts([lo]) + LitTexts([hi]);
    assert Sql(Between(f, lo, hi)) + rest == f + " BETWEEN " + s1;
    if QuietLit(lo) {
      DirtyLiteral(cc, hi, rest);
      LexBounds(cc, lo, s2);
      MisreadAfter(cc, s1, [LitToken(lo), KwAnd], s2, LitTexts([hi]));
      LitTokenText(lo);
      TwoTexts(LitToken(lo), KwAnd);
    } else {
      DirtyLiteral(cc, lo, " AND " + s2);
      MisreadMore(cc, s1, LitTexts([lo]), LitTexts([hi]));
    }
    HeadBetween(cc, f, s1);
    DirtyAfter(cc, f + " BETWEEN " + s1, [Ident(f), KwBetween], s1, strs);
  }

  lemma ListText(vs: seq<Literal>)
    requires vs != []
    ensures Join(SqlVals(vs), ", ") ==
            if |vs| == 1 then SqlVal(vs[0]) else SqlVal(vs[0]) + (", " + Join(SqlVals(vs[1..]), ", "))
  {
    JoinCons(SqlVal(vs[0]), SqlVals(vs[1..]), ", ");
  }

  lemma {:induction false} DirtyList(cc: Classes, vs: seq<Literal>, rest: string)
    requires cc.Sane() && (forall v :: v in vs ==> ShapedLit(cc, v)) && exists v :: v in vs && !QuietLit(v)
    ensures Misread(cc, Join(SqlVals(vs), ", ") + rest, LitTexts(vs))
  {
    hide Lex, Misread, SqlVal, QuietLit, ShapedLit, Texts, Join, SqlVals, LitTexts, LitToken;
    ListText(vs);
    var tail := Join(SqlVals(vs[1..]), ", ") + rest;
    assert vs == [vs[0]] + vs[1..];
    LitTextsConcat([vs[0]], vs[1..]);
    var after := if |vs| == 1 then rest else ", " + tail;
    assert Join(SqlVals(vs), ", ") + rest == SqlVal(vs[0]) + after;
    if QuietLit(vs[0]) {
      DirtyList(cc, vs[1..], rest);
      LexItem(cc, vs[0], tail);
      MisreadAfter(cc, SqlVal(vs[0]) + after, [LitToken(vs[0]), Comma], tail, LitTexts(vs[1..]));
      LitTokenText(vs[0]);
      TwoTexts(LitToken(vs[0]), Comma);
    } else {
      DirtyLiteral(cc, vs[0], after);
      MisreadMore(cc, SqlVal(vs[0]) + after, LitTexts([vs[0]]), LitTexts(vs[1..]));
    }
  }

  lemma DirtyIn(cc: Classes, f: string, vs: seq<Literal>, neg: bool, rest: string)
    requires cc.Sane() && IsName(cc, f) && (forall v :: v in vs ==> ShapedLit(cc, v))
    requires exists v :: v in vs && !QuietLit(v)
    ensures Misread(cc, Sql(In(f, vs, neg)) + rest, LitTexts(vs))
  {
    hide Lex, Misread, Join, SqlVals, IsName, QuietLit, ShapedLit, LitTexts;
    var s := Join(SqlVals(vs), ", ") + ([')'] + rest);
    var text := f + (if neg then " NOT IN (" else " IN (") + s;
    assert Sql(In(f, vs, neg)) + rest == text;
    DirtyList(cc, vs, [')'] + rest);
    HeadIn(cc, f, neg, s);
    DirtyAfter(cc, text, [Ident(f)] + (if neg then [KwNot] else []) + [KwIn, LParen], s, LitTexts(vs));
  }

  lemma DirtyLike(cc: Classes, f: string, p: string, neg: bool, rest: string)
    requires cc.Sane() && IsName(cc, f) && !QuietText(p)
    ensures Misread(cc, Sql(Like(f, p, neg)) + rest, [p])
  {
    hide Lex, Misread, IsName, QuietText;
    var s := "'" + (p + ("'" + rest));
    var text := f + (if neg then " NOT LIKE " else " LIKE ") + s;
    assert Sql(Like(f, p, neg)) + rest == text;
    DirtyQuoted(cc, p, rest);
    HeadLike(cc, f, neg, s);
    DirtyAfter(cc, text, [Ident(f)] + (if neg then [KwNot] else []) + [KwLike], s, [p]);
  }

  // ---- the token list of a tree carries its strings ---------------------------------------------

  lemma {:induction false} ListTexts(vs: seq<Literal>)
    ensures Texts(Join(LitTokens(vs), [Comma])) == LitTexts(vs)
  {
    hide Texts;
    if vs == [] {
      NoQuoted([]);
    } else {
      var tail := Join(LitTokens(vs[1..]), [Comma]);
      JoinCons([LitToken(vs[0])], LitTokens(vs[1..]), [Comma]);
      LitTokenText(vs[0]);
      assert vs == [vs[0]] + vs[1..];
      LitTextsConcat([vs[0]], vs[1..]);
      if |vs| > 1 {
        ListTexts(vs[1..]);
        TextsConcat([LitToken(vs[0])], [Comma] + tail);
        TextsConcat([Comma], tail);
        NoQuoted([Comma]);
      }
    }
  }

  lemma {:induction false} TokenTexts(n: Node)
    ensures Texts(Tokens(n)) == Strings(n)
    decreases n, 1
  {
    hide Texts;
    match n
    case Logic(op, args) => PartTexts(Connective(op), args);
    case Compare(f, op, v) =>
      LitTokenText(v);
      TextsConcat([Ident(f), Op(op)], [LitToken(v)]);
      NoQuoted([Ident(f), Op(op)]);
      assert [Ident(f), Op(op)] + [LitToken(v)] == Tokens(n);
    case Between(f, lo, hi) =>
      LitTokenText(lo);
      LitTokenText(hi);
      TextsConcat([Ident(f), KwBetween] + [LitToken(lo)] + [KwAnd], [LitToken(hi)]);
      TextsConcat([Ident(f), KwBetween] + [LitToken(lo)], [KwAnd]);
      TextsConcat([Ident(f), KwBetween], [LitToken(lo)]);
      NoQuoted([Ident(f), KwBetween]);
      NoQuoted([KwAnd]);
      assert [Ident(f), KwBetween] + [LitToken(lo)] + [KwAnd] + [LitToken(hi)] == Tokens(n);
    case In(f, vs, neg) => InTexts(f, vs, neg);
    case Like(f, p, neg) =>
      var head := [Ident(f)] + (if neg then [KwNot, KwLike] else [KwLike]);
      TextsConcat(head, [Quoted(p)]);
      NoQuoted(head);
      LitTokenText(Str(p));
      assert LitTexts([Str(p)]) == [p] + LitTexts([]) == [p];
      assert head + [Quoted(p)] == Tokens(n);
    case IsNull(f, neg) => NoQuoted(Tokens(n));
    case Not(a) =>
      TokenTexts(a);
      GroupTexts([KwNot, LParen], Tokens(a));
  }

  lemma InTexts(f: string, vs: seq<Literal>, neg: bool)
    ensures Texts(Tokens(In(f, vs, neg))) == LitTexts(vs)
  {
    hide Texts;
    var head := [Ident(f)] + (if neg then [KwNot, KwIn, LParen] else [KwIn, LParen]);
    ListTexts(vs);
    GroupTexts(head, Join(LitTokens(vs), [Comma]));
  }

  /** A closed group has the texts of its inside. */
  lemma GroupTexts(head: seq<Token>, toks: seq<Token>)
    requires forall t :: t in head ==> !t.Quoted?
    ensures Texts(head + toks + [RParen]) == Texts(toks)
  {
    hide Texts;
    TextsConcat(head + toks, [RParen]);
    TextsConcat(head, toks);
    NoQuoted(head);
    NoQuoted([RParen]);
  }

  lemma {:induction false} WrapTexts(n: Node)
    ensures Texts(WrapTokens(n)) == Strings(n)
    decreases n, 2
  {
    TokenTexts(n);
    if n.Logic? { GroupTexts([LParen], Tokens(n)); }
  }

  lemma {:induction false} PartTexts(c: Token, args: seq<Node>)
    requires !c.Quoted?
    ensures Texts(Join(TokenParts(args), [c])) == ArgStrings(args)
    decreases args, 0
  {
    hide Texts, WrapTokens, Strings;
    if args == [] {
      NoQuoted([]);
    } else {
      var head, tail := WrapTokens(args[0]), Join(TokenParts(args[1..]), [c]);
      JoinCons(head, TokenParts(args[1..]), [c]);
      WrapTexts(args[0]);
      if |args| > 1 {
        PartTexts(c, args[1..]);
        TextsConcat(head, [c] + tail);
        TextsConcat([c], tail);
        NoQuoted([c]);
      } else {
        assert args[1..] == [] && Strings(args[0]) + [] == Strings(args[0]);
      }
    }
  }

  // ---- a tree with a dirty string is misread -----------------------------------------------------

  lemma {:induction false} DirtyNode(cc: Classes, n: Node, rest: string)
    requires cc.Sane() && Shaped(cc, n, 1) && !Quiet(n)
    ensures Misread(cc, Sql(n) + rest, Strings(n))
    decreases n, 1
  {
    hide Lex, Misread, IsName, ShapedLit, QuietLit, QuietText, LitTexts;
    match n
    case Logic(op, args) => DirtyParts(cc, op, args, rest);
    case Compare(f, op, v) => DirtyCompare(cc, f, op, v, rest);
    case Between(f, lo, hi) => DirtyBetween(cc, f, lo, hi, rest);
    case In(f, vs, neg) => DirtyIn(cc, f, vs, neg, rest);
    case Like(f, p, neg) => DirtyLike(cc, f, p, neg, rest);
    case Not(a) =>
      var s := Sql(a) + ([')'] + rest);
      assert Sql(n) + rest == "NOT (" + s;
      DirtyNode(cc, a, [')'] + rest);
      HeadNot(cc, s);
      DirtyAfter(cc, "NOT (" + s, [KwNot, LParen], s, Strings(a));
  }

  lemma {:induction false} DirtyWrapped(cc: Classes, n: Node, rest: string)
    requires cc.Sane() && Shaped(cc, n, 1) && !Quiet(n)
    ensures Misread(cc, WrapSql(n) + rest, Strings(n))
    decreases n, 2
  {
    hide Lex, Misread;
    if n.Logic? {
      var s := Sql(n) + ([')'] + rest);
      assert WrapSql(n) + rest == ['('] + s;
      DirtyNode(cc, n, [')'] + rest);
      LexMark(cc, '(', s);
      DirtyAfter(cc, ['('] + s, [LParen], s, Strings(n));
    } else {
      DirtyNode(cc, n, rest);
    }
  }

  lemma {:induction false} DirtyParts(cc: Classes, op: string, args: seq<Node>, rest: string)
    requires cc.Sane() && op in {"AND", "OR"} && (forall a :: a in args ==> Shaped(cc, a, 1))
    requires exists a :: a in args && !Quiet(a)
    ensures Misread(cc, Join(SqlParts(args), " " + op + " ") + rest, ArgStrings(args))
    decreases args, 3
  {
    hide Lex, Misread, WrapSql, WrapTokens, Shaped, Quiet, Strings, Texts, WordToken, Join;
    var sep := " " + op + " ";
    JoinCons(WrapSql(args[0]), SqlParts(args[1..]), sep);
    var tail := Join(SqlParts(args[1..]), sep) + rest;
    var after := if |args| == 1 then rest else sep + tail;
    assert Join(SqlParts(args), sep) + rest == WrapSql(args[0]) + after;
    if Quiet(args[0]) {
      DirtyParts(cc, op, args[1..], rest);
      HeadWord(cc, op, tail);
      KeywordTokens();
      DirtyAfter(cc, sep + tail, [WordToken(op)], tail, ArgStrings(args[1..]));
      LexWrapped(cc, args[0], after);
      WrapTexts(args[0]);
      MisreadAfter(cc, WrapSql(args[0]) + after, WrapTokens(args[0]), after, ArgStrings(args[1..]));
    } else {
      DirtyWrapped(cc, args[0], after);
      MisreadMore(cc, WrapSql(args[0]) + after, Strings(args[0]), ArgStrings(args[1..]));
    }
  }

  // ---- the exact statement -------------------------------------------------------------------------

  /** A tree survives printing and parsing exactly when it is clean. */
  lemma RoundTripIff(cc: Classes, n: Node)
    requires cc.Sane()
    ensures Parse(cc, Sql(n)) == Some(n) <==> Clean(cc, n)
  {
    hide Parse, Lex, Sql, Shaped, Quiet, Strings, Texts;
    if Parse(cc, Sql(n)) == Some(n) {
      ParsedIsShaped(cc, Sql(n), n);
      if !Quiet(n) {
        Wider(cc, n);
        DirtyNode(cc, n, "");
        assert Sql(n) + "" == Sql(n);
        ParsedLexes(cc, Sql(n));
      }
    }
    if Clean(cc, n) { ParsePrinted(cc, n); }
  }

  lemma ParsedLexes(cc: Classes, s: string)
    requires Parse(cc, s).Some?
    ensures Lex(cc, s).Some?
  {
  }

  /** For a tree that came from rule text, the strings alone decide. */
  lemma ReparseIff(cc: Classes, s: string, n: Node)
    requires cc.Sane() && Parse(cc, s) == Some(n)
    ensures Parse(cc, Sql(n)) == Some(n) <==> Quiet(n)
  {
    hide Parse;
    ParsedIsShaped(cc, s, n);
    RoundTripIff(cc, n);
  }
}
