/**
 * The lexer from the characters alone (pkg/ir/lexer.go:51-214): which lexemes spell which tokens, and
 * the rule that each token is the longest lexeme at its place. The scanner is shown to be exactly that.
 */
module Lexemes {
  import opened Prelude
  import opened Lexer

  // ---- spelling -------------------------------------------------------------------------------------

  /** Every operator is written as itself, and `<>` is another way to write `!=`. */
  predicate Denotes(w: string, op: string) { (w == op && op in OPERATORS) || (w == "<>" && op == "!=") }

  /** The keyword a token stands for, in capitals. */
  function Keyword(t: Token): Option<string> {
    match t
    case KwAnd => Some("AND")
    case KwOr => Some("OR")
    case KwBetween => Some("BETWEEN")
    case KwIn => Some("IN")
    case KwLike => Some("LIKE")
    case KwIs => Some("IS")
    case KwNot => Some("NOT")
    case KwNull => Some("NULL")
    case _ => None
  }

  /** Equal up to ASCII case, k being in capitals. */
  predicate SameLetters(w: string, k: string) {
    |w| == |k| && forall i :: 0 <= i < |k| ==> w[i] == k[i] || w[i] as int == k[i] as int + 32
  }

  predicate IsWord(cc: Classes, w: string) {
    w != "" && cc.IdentStart(w[0]) && forall i :: 0 <= i < |w| ==> cc.IdentPart(w[i])
  }

  predicate IsDigits(cc: Classes, w: string) {
    w != "" && cc.digit(w[0]) && forall i :: 0 <= i < |w| ==> cc.NumPart(w[i])
  }

  /** raw, written between quotes q, stands for x: a backslash takes the next character as it is. */
  predicate Escapes(q: char, raw: string, x: string) {
    if raw == "" then x == ""
    else if raw[0] == '\\' then |raw| > 1 && x != "" && x[0] == raw[1] && Escapes(q, raw[2..], x[1..])
    else raw[0] != q && x != "" && x[0] == raw[0] && Escapes(q, raw[1..], x[1..])
  }

  /** w is a quoted text standing for x. */
  predicate IsQuoted(w: string, x: string) {
    |w| >= 2 && w[0] in "'\"" && w[|w| - 1] == w[0] && Escapes(w[0], w[1..|w| - 1], x)
  }

  /** The lexeme w spells the token t. */
  ghost predicate Spells(cc: Classes, w: string, t: Token) {
    match t
    case EOF => false
    case LParen => w == "("
    case RParen => w == ")"
    case Comma => w == ","
    case Op(o) => Denotes(w, o)
    case Number(x) => w == x && IsDigits(cc, w)
    case Quoted(x) => IsQuoted(w, x)
    case Ident(x) => w == x && IsWord(cc, w) && forall t' :: Keyword(t').Some? ==> !SameLetters(w, Keyword(t').value)
    case _ => IsWord(cc, w) && SameLetters(w, Keyword(t).value)
  }

  /** The longest lexeme at the front of s has k characters and spells t. */
  ghost predicate Longest(cc: Classes, s: string, k: nat, t: Token) {
    && k <= |s| && Spells(cc, s[..k], t)
    && forall k', t' :: k < k' <= |s| ==> !Spells(cc, s[..k'], t')
  }

  // ---- one token ---------------------------------------------------------------------------------------

  lemma UpperIs(w: string, k: string)
    requires forall i :: 0 <= i < |k| ==> 'A' <= k[i] <= 'Z'
    ensures Upper(w) == k <==> SameLetters(w, k)
  {
    if Upper(w) == k {
      forall i | 0 <= i < |k| ensures w[i] == k[i] || w[i] as int == k[i] as int + 32 { assert Upper(w)[i] == k[i]; }
    }
    if SameLetters(w, k) {
      forall i | 0 <= i < |k| ensures Upper(w)[i] == k[i] { }
    }
  }

  lemma KeywordIs(w: string, t: Token)
    requires Keyword(t).Some?
    ensures Upper(w) == Keyword(t).value <==> SameLetters(w, Keyword(t).value)
  {
    var k := Keyword(t).value;
    assert forall i :: 0 <= i < |k| ==> 'A' <= k[i] <= 'Z';
    UpperIs(w, k);
  }

  /** A word spells exactly one token: the keyword it equals up to case, or itself as an identifier. */
  lemma WordSpells(cc: Classes, w: string, t: Token)
    requires IsWord(cc, w)
    ensures t == WordToken(w) <==> Spells(cc, w, t) && IsWordToken(t)
  {
    hide SameLetters, Upper, IsWord, IsDigits, IsQuoted, Denotes;
    forall t' | Keyword(t').Some? ensures Upper(w) == Keyword(t').value <==> SameLetters(w, Keyword(t').value) {
      KeywordIs(w, t');
    }
    WordTokenIs(w, t);
  }

  lemma WordTokenIs(w: string, t: Token)
    ensures Keyword(t).Some? ==> (t == WordToken(w) <==> Upper(w) == Keyword(t).value)
    ensures t.Ident? ==>
              (t == WordToken(w) <==>
                 t.text == w && forall t' :: Keyword(t').Some? ==> Upper(w) != Keyword(t').value)
    ensures t == WordToken(w) ==> IsWordToken(t)
  {
    hide Upper;
    assert Keyword(KwAnd).Some? && Keyword(KwOr).Some? && Keyword(KwBetween).Some? && Keyword(KwIn).Some?;
    assert Keyword(KwLike).Some? && Keyword(KwIs).Some? && Keyword(KwNot).Some? && Keyword(KwNull).Some?;
  }

  /** The body of a quoted text ends at the one place where an unescaped quote stands. */
  lemma {:induction false} BodyOf(q: char, s: string, k: nat, x: string)
    requires q != '\\' && k < |s| && s[k] == q && Escapes(q, s[..k], x)
    ensures Body(q, s) == Got(Quoted(x), s[k + 1..])
    decreases |s|
  {
    if k > 0 {
      var n := if s[0] == '\\' then 2 else 1;
      assert s[..k][n..] == s[n..][..k - n] && s[n..][k - n] == q;
      BodyOf(q, s[n..], k - n, x[1..]);
      assert s[n..][k - n + 1..] == s[k + 1..] && [x[0]] + x[1..] == x;
    }
  }

  lemma {:induction false} BodyFound(q: char, s: string) returns (k: nat)
    requires q != '\\' && Body(q, s).Got?
    ensures Body(q, s).tok.Quoted?
    ensures k < |s| && s[k] == q && Escapes(q, s[..k], Body(q, s).tok.text) && Body(q, s).rest == s[k + 1..]
    decreases |s|
  {
    if s[0] == q {
      k := 0;
    } else {
      var n := if s[0] == '\\' && |s| > 1 then 2 else 1;
      var j := BodyFound(q, s[n..]);
      k := n + j;
      assert s[..k][n..] == s[n..][..j] && s[n..][j + 1..] == s[k + 1..];
    }
  }

  /** What a lexeme can spell is decided by its first character. */
  predicate FirstFits(cc: Classes, c: char, t: Token) {
    match t
    case EOF => false
    case LParen => c == '('
    case RParen => c == ')'
    case Comma => c == ','
    case Op(_) => OpensOperator(c)
    case Number(_) => cc.digit(c)
    case Quoted(_) => c in "'\""
    case _ => cc.IdentStart(c)
  }

  lemma FirstDecides(cc: Classes, w: string, t: Token)
    requires Spells(cc, w, t)
    ensures w != "" && FirstFits(cc, w[0], t)
  {
  }

  predicate IsMark(t: Token) { t.LParen? || t.RParen? || t.Comma? }
  predicate IsWordToken(t: Token) { t.Ident? || Keyword(t).Some? }

  /** Under disjoint classes a first character admits one kind of token. */
  lemma OneKind(cc: Classes, c: char, t: Token)
    requires cc.Sane() && FirstFits(cc, c, t)
    ensures c in "()," <==> IsMark(t)
    ensures c in "'\"" <==> t.Quoted?
    ensures OpensOperator(c) <==> t.Op?
    ensures cc.digit(c) <==> t.Number?
    ensures cc.IdentStart(c) <==> IsWordToken(t)
    ensures !cc.space(c)
  {
    assert forall d :: d in "(),'\"=!<>_" ==> d in PUNCTUATION;
  }

  /** Every lexeme at the front of s spells a token of the kind its first character admits. */
  lemma SpelledAt(cc: Classes, s: string, k: nat, t: Token)
    requires k <= |s| && Spells(cc, s[..k], t)
    ensures k > 0 && FirstFits(cc, s[0], t)
  {
    FirstDecides(cc, s[..k], t);
  }

  /** A lexeme that outdoes every other at its place is the longest. */
  lemma Determined(cc: Classes, s: string, n: nat, tok: Token, k: nat, t: Token)
    requires n <= |s| && Spells(cc, s[..n], tok)
    requires forall k': nat, t' :: k' <= |s| && Spells(cc, s[..k'], t') ==> k' < n || (k' == n && t' == tok)
    ensures Longest(cc, s, k, t) <==> k == n && t == tok
    ensures k <= |s| && Got(t, s[k..]) == Got(tok, s[n..]) <==> k == n && t == tok
  {
    hide Spells;
    if k <= |s| { assert |s[k..]| == |s| - k && |s[n..]| == |s| - n; }
  }

  lemma MarkLongest(cc: Classes, s: string, k: nat, t: Token)
    requires cc.Sane() && s != "" && s[0] in "(),"
    ensures Longest(cc, s, k, t) <==> k <= |s| && Dispatch(cc, s) == Got(t, s[k..])
  {
    hide Longest, Spells;
    var tok := if s[0] == '(' then LParen else if s[0] == ')' then RParen else Comma;
    forall k': nat, t' | k' <= |s| ensures Spells(cc, s[..k'], t') <==> k' == 1 && t' == tok {
      MarkAt(cc, s, k', t');
    }
    Determined(cc, s, 1, tok, k, t);
  }

  lemma MarkAt(cc: Classes, s: string, k: nat, t: Token)
    requires cc.Sane() && s != "" && s[0] in "()," && k <= |s|
    ensures Spells(cc, s[..k], t) <==>
            k == 1 && t == if s[0] == '(' then LParen else if s[0] == ')' then RParen else Comma
  {
    if Spells(cc, s[..k], t) {
      SpelledAt(cc, s, k, t);
      OneKind(cc, s[0], t);
    }
  }

  lemma OperatorAt(cc: Classes, s: string, k: nat, t: Token)
    requires cc.Sane() && s != "" && OpensOperator(s[0]) && k <= |s|
    ensures Spells(cc, s[..k], t) <==> t.Op? && Denotes(s[..k], t.text)
  {
    if Spells(cc, s[..k], t) {
      SpelledAt(cc, s, k, t);
      OneKind(cc, s[0], t);
    }
  }

  /** The operator lexemes at the front of a text. */
  lemma DenotesAt(s: string, k: nat, op: string)
    requires s != "" && OpensOperator(s[0]) && k <= |s|
    ensures var next := if |s| > 1 then s[1] else '\0';
            Denotes(s[..k], op) <==>
              || (k == 1 && s[0] != '!' && op == [s[0]])
              || (k == 2 && next == '=' && op == [s[0], '='])
              || (k == 2 && s[0] == '<' && next == '>' && op == "!=")
  {
    if k == 1 { assert s[..k] == [s[0]]; }
    if k == 2 { assert s[..k] == [s[0], s[1]]; }
  }

  lemma OperatorLongest(cc: Classes, s: string, k: nat, t: Token)
    requires cc.Sane() && s != "" && OpensOperator(s[0])
    ensures Longest(cc, s, k, t) <==> k <= |s| && Operator(s) == Got(t, s[k..])
  {
    hide Longest, Spells, Denotes;
    var r := Operator(s);
    var n := if r.Got? then |s| - |r.rest| else 0;
    forall k': nat, t' | k' <= |s| && Spells(cc, s[..k'], t') ensures r.Got? && (k' < n || (k' == n && t' == r.tok)) {
      OperatorAt(cc, s, k', t');
      DenotesAt(s, k', t'.text);
    }
    if r.Got? {
      OperatorAt(cc, s, n, r.tok);
      DenotesAt(s, n, r.tok.text);
      Determined(cc, s, n, r.tok, k, t);
    } else {
      NotLongest(cc, s, k, t);
    }
  }

  lemma NotLongest(cc: Classes, s: string, k: nat, t: Token)
    ensures Longest(cc, s, k, t) ==> k <= |s| && Spells(cc, s[..k], t)
  {
  }

  /** A prefix consists of such characters exactly when it lies within the span. */
  lemma RunPrefix(p: char -> bool, s: string, k: nat)
    requires k <= |s|
    ensures (forall i :: 0 <= i < k ==> p(s[..k][i])) <==> k <= Span(p, s)
  {
    hide Span;
    SpanMaximal(p, s);
    var n := Span(p, s);
    if n < k { assert s[..k][n] == s[n]; }
  }

  lemma NumberAt(cc: Classes, s: string, k: nat, t: Token)
    requires cc.Sane() && s != "" && cc.digit(s[0]) && k <= |s|
    ensures Spells(cc, s[..k], t) <==> 0 < k <= Span(cc.NumPart, s) && t == Number(s[..k])
  {
    hide Span;
    RunPrefix(cc.NumPart, s, k);
    if Spells(cc, s[..k], t) {
      SpelledAt(cc, s, k, t);
      OneKind(cc, s[0], t);
    }
  }

  lemma NumberLongest(cc: Classes, s: string, k: nat, t: Token)
    requires cc.Sane() && s != "" && cc.digit(s[0])
    ensures Longest(cc, s, k, t) <==> k <= |s| && ReadNumber(cc, s) == Got(t, s[k..])
  {
    hide Longest, Spells;
    var n := Span(cc.NumPart, s);
    forall k': nat, t' | k' <= |s| ensures Spells(cc, s[..k'], t') <==> 0 < k' <= n && t' == Number(s[..k']) {
      NumberAt(cc, s, k', t');
    }
    Determined(cc, s, n, Number(s[..n]), k, t);
  }

  lemma WordAt(cc: Classes, s: string, k: nat, t: Token)
    requires cc.Sane() && s != "" && cc.IdentStart(s[0]) && k <= |s|
    ensures Spells(cc, s[..k], t) <==> 0 < k <= Span(cc.IdentPart, s) && t == WordToken(s[..k])
  {
    hide WordToken, Span, Spells;
    WordPrefix(cc, s, k);
    if Spells(cc, s[..k], t) {
      SpelledAt(cc, s, k, t);
      OneKind(cc, s[0], t);
      SpellsWord(cc, s[..k], t);
    }
    if IsWord(cc, s[..k]) { WordSpells(cc, s[..k], t); }
  }

  lemma WordPrefix(cc: Classes, s: string, k: nat)
    requires s != "" && cc.IdentStart(s[0]) && k <= |s|
    ensures IsWord(cc, s[..k]) <==> 0 < k <= Span(cc.IdentPart, s)
  {
    hide Span;
    RunPrefix(cc.IdentPart, s, k);
  }

  lemma SpellsWord(cc: Classes, w: string, t: Token)
    requires Spells(cc, w, t) && IsWordToken(t)
    ensures IsWord(cc, w)
  {
  }

  lemma WordLongest(cc: Classes, s: string, k: nat, t: Token)
    requires cc.Sane() && s != "" && cc.IdentStart(s[0])
    ensures Longest(cc, s, k, t) <==> k <= |s| && ReadWord(cc, s) == Got(t, s[k..])
  {
    hide Longest, Spells, WordToken;
    var n := Span(cc.IdentPart, s);
    forall k': nat, t' | k' <= |s| ensures Spells(cc, s[..k'], t') <==> 0 < k' <= n && t' == WordToken(s[..k']) {
      WordAt(cc, s, k', t');
    }
    Determined(cc, s, n, WordToken(s[..n]), k, t);
  }

  lemma QuotedLongest(cc: Classes, s: string, k: nat, t: Token)
    requires cc.Sane() && s != "" && s[0] in "'\""
    ensures Longest(cc, s, k, t) <==> k <= |s| && Body(s[0], s[1..]) == Got(t, s[k..])
  {
    hide Longest, Body, Escapes;
    var r := Body(s[0], s[1..]);
    forall k': nat, t' | k' <= |s| && Spells(cc, s[..k'], t') ensures r == Got(t', s[k'..]) && |s[k'..]| == |s| - k' {
      QuotedAt(cc, s, k', t');
    }
    if r.Got? {
      var j := BodyFound(s[0], s[1..]);
      var n := j + 2;
      assert s[1..][..j] == s[..n][1..|s[..n]| - 1] && s[1..][j + 1..] == s[n..];
      assert Spells(cc, s[..n], r.tok);
      Determined(cc, s, n, r.tok, k, t);
    } else {
      NotLongest(cc, s, k, t);
    }
  }

  lemma QuotedAt(cc: Classes, s: string, k: nat, t: Token)
    requires cc.Sane() && s != "" && s[0] in "'\"" && k <= |s| && Spells(cc, s[..k], t)
    ensures Body(s[0], s[1..]) == Got(t, s[k..])
  {
    hide Body, Escapes;
    SpelledAt(cc, s, k, t);
    OneKind(cc, s[0], t);
    assert s[..k][1..k - 1] == s[1..][..k - 2];
    BodyOf(s[0], s[1..], k - 2, t.text);
    assert s[1..][k - 1..] == s[k..];
  }

  /** The scanner reads exactly the longest lexeme. */
  lemma DispatchLongest(cc: Classes, s: string, k: nat, t: Token)
    requires cc.Sane() && s != ""
    ensures Longest(cc, s, k, t) <==> k <= |s| && Dispatch(cc, s) == Got(t, s[k..])
  {
    hide Longest, Body, Operator, ReadNumber, ReadWord;
    var c := s[0];
    assert forall d :: d in "(),'\"=!<>_" ==> d in PUNCTUATION;
    if c in "()," { MarkLongest(cc, s, k, t); }
    else if c in "'\"" { QuotedLongest(cc, s, k, t); }
    else if OpensOperator(c) { OperatorLongest(cc, s, k, t); }
    else if cc.digit(c) { NumberLongest(cc, s, k, t); }
    else if cc.IdentStart(c) { WordLongest(cc, s, k, t); }
    else { NothingSpelled(cc, s, k, t); }
  }

  lemma NothingSpelled(cc: Classes, s: string, k: nat, t: Token)
    requires s != "" && s[0] !in "(),'\"" && !OpensOperator(s[0]) && !cc.digit(s[0]) && !cc.IdentStart(s[0])
    ensures !Longest(cc, s, k, t)
  {
    if Longest(cc, s, k, t) { SpelledAt(cc, s, k, t); }
  }

  // ---- whole texts ----------------------------------------------------------------------------------------

  predicate AllSpace(cc: Classes, s: string) { forall i :: 0 <= i < |s| ==> cc.space(s[i]) }

  /** The text is the tokens in order, spaces between them, each the longest lexeme where it starts. */
  ghost predicate Lexes(cc: Classes, text: string, toks: seq<Token>)
    decreases |toks|
  {
    if toks == [] then AllSpace(cc, text)
    else exists a: nat, b: nat :: a < b <= |text| && TokenAt(cc, text, toks[0], a, b) && Lexes(cc, text[b..], toks[1..])
  }

  /** Spaces up to a, and then t as the longest lexeme, up to b. */
  ghost predicate TokenAt(cc: Classes, text: string, t: Token, a: nat, b: nat)
    requires a <= b <= |text|
  {
    AllSpace(cc, text[..a]) && Longest(cc, text[a..], b - a, t)
  }

  lemma EmptyDispatch(cc: Classes, s: string)
    ensures Dispatch(cc, s) == Got(EOF, "") <== s == ""
    ensures s != "" && Dispatch(cc, s).Got? ==> Dispatch(cc, s).tok != EOF
  {
    if s != "" { BodyShrinks(s[0], s[1..]); }
  }

  lemma SpanIs(p: char -> bool, s: string, n: nat)
    requires n < |s| && (forall i :: 0 <= i < n ==> p(s[i])) && !p(s[n])
    ensures Span(p, s) == n
  {
    SpanExact(p, s[..n], s[n..]);
    assert s == s[..n] + s[n..];
  }

  lemma NotEof(cc: Classes, s: string, k: nat, t: Token)
    requires Longest(cc, s, k, t)
    ensures t != EOF
  {
  }

  lemma Blank(cc: Classes, text: string)
    ensures Next(cc, text).Got? && Next(cc, text).tok == EOF <==> AllSpace(cc, text)
  {
    hide Dispatch;
    var n := Span(cc.space, text);
    SpanMaximal(cc.space, text);
    EmptyDispatch(cc, text[n..]);
  }

  /** Spaces and then the longest lexeme: this is what the scanner reads. */
  lemma ReadsLongest(cc: Classes, text: string, a: nat, b: nat, t: Token)
    requires cc.Sane() && a < b <= |text| && TokenAt(cc, text, t, a, b)
    ensures Next(cc, text) == Got(t, text[b..]) && t != EOF
  {
    hide Longest, Dispatch, Span;
    NotEof(cc, text[a..], b - a, t);
    FirstIsNoSpace(cc, text[a..], b - a, t);
    forall i | 0 <= i < a ensures cc.space(text[i]) { assert text[..a][i] == text[i]; }
    SpanIs(cc.space, text, a);
    DispatchLongest(cc, text[a..], b - a, t);
    assert text[a..][b - a..] == text[b..];
  }

  lemma FirstIsNoSpace(cc: Classes, s: string, k: nat, t: Token)
    requires cc.Sane() && Longest(cc, s, k, t) && s != ""
    ensures !cc.space(s[0])
  {
    SpelledAt(cc, s, k, t);
    OneKind(cc, s[0], t);
  }

  lemma DispatchRest(cc: Classes, s: string) returns (k: nat)
    requires s != "" && Dispatch(cc, s).Got?
    ensures k <= |s| && Dispatch(cc, s).rest == s[k..]
  {
    hide Body, Span, WordToken;
    if s[0] in "'\"" {
      var j := BodyFound(s[0], s[1..]);
      assert s[1..][j + 1..] == s[j + 2..];
    }
    k := |s| - |Dispatch(cc, s).rest|;
  }

  /** Whatever the scanner reads is the longest lexeme after the spaces. */
  lemma ReadIsLongest(cc: Classes, text: string) returns (a: nat, b: nat)
    requires cc.Sane() && Next(cc, text).Got? && Next(cc, text).tok != EOF
    ensures a < b <= |text| && TokenAt(cc, text, Next(cc, text).tok, a, b) && Next(cc, text).rest == text[b..]
  {
    hide Longest, Dispatch, Span;
    a := Span(cc.space, text);
    SpanMaximal(cc.space, text);
    EmptyDispatch(cc, text[a..]);
    var k := DispatchRest(cc, text[a..]);
    b := a + k;
    assert text[a..][k..] == text[b..];
    DispatchLongest(cc, text[a..], k, Next(cc, text).tok);
    NotLongest(cc, text[a..], k, Next(cc, text).tok);
    SpelledAt(cc, text[a..], k, Next(cc, text).tok);
  }

  /** The scanner and the relation agree: a text has one token list at most, and this is it. */
  lemma {:induction false} LexIff(cc: Classes, text: string, toks: seq<Token>)
    requires cc.Sane()
    ensures Lex(cc, text) == Some(toks + [EOF]) <==> Lexes(cc, text, toks)
    decreases |toks|
  {
    hide TokenAt, Next;
    var r := Next(cc, text);
    if toks == [] {
      Blank(cc, text);
      assert [] + [EOF] == [EOF];
      if r.Got? && r.tok != EOF && Lex(cc, r.rest).Some? { assert ([r.tok] + Lex(cc, r.rest).value)[0] != EOF; }
    } else {
      if Lexes(cc, text, toks) {
        var a: nat, b: nat :| a < b <= |text| && TokenAt(cc, text, toks[0], a, b) && Lexes(cc, text[b..], toks[1..]);
        ReadsLongest(cc, text, a, b, toks[0]);
        LexIff(cc, text[b..], toks[1..]);
        assert [toks[0]] + (toks[1..] + [EOF]) == toks + [EOF];
      }
      if Lex(cc, text) == Some(toks + [EOF]) {
        assert (toks + [EOF])[0] == toks[0] == r.tok;
        assert (toks + [EOF])[1..] == toks[1..] + [EOF];
        assert r.tok != EOF;
        assert Lex(cc, r.rest).value == (toks + [EOF])[1..];
        var a, b := ReadIsLongest(cc, text);
        LexIff(cc, text[b..], toks[1..]);
        assert TokenAt(cc, text, toks[0], a, b);
      }
    }
  }
}
