/** Rule text to tokens (pkg/ir/lexer.go, and lexAll of pkg/ir/parser.go). */
module Lexer {
  import opened Prelude

  /** Token text is kept only where the parser reads it; positions serve error messages only. */
  datatype Token =
    | EOF | Ident(text: string) | Number(text: string) | Quoted(text: string) | Op(text: string)
    | LParen | RParen | Comma
    | KwAnd | KwOr | KwBetween | KwIn | KwLike | KwIs | KwNot | KwNull

  /** The Unicode tables the lexer consults: unicode.IsSpace, IsLetter, IsDigit. */
  datatype Classes = Classes(space: char -> bool, letter: char -> bool, digit: char -> bool) {
    predicate IdentStart(c: char) { c == '_' || letter(c) }
    predicate IdentPart(c: char) { c == '_' || letter(c) || digit(c) }
    predicate NumPart(c: char) { digit(c) || c == '.' }

    /** All that is used of the Unicode tables: the classes are disjoint, punctuation is in none. */
    ghost predicate Sane() {
      && (forall c :: letter(c) ==> !digit(c) && !space(c))
      && (forall c :: digit(c) ==> !space(c))
      && (forall c :: c in PUNCTUATION ==> !letter(c) && !digit(c) && !space(c))
      && (forall c :: 'A' <= c <= 'Z' ==> letter(c))
      && space(' ')
    }
  }

  const PUNCTUATION := "(),'\"=!<>._"
  const OPERATORS := {"=", "==", "!=", ">", ">=", "<", "<="}
  const KEYWORDS := {"AND", "OR", "BETWEEN", "IN", "LIKE", "IS", "NOT", "NULL"}

  // ---- specification ------------------------------------------------------------------

  function UpperChar(c: char): char {
    if 'a' <= c <= 'z' then (c as int - 32) as char else c
  }

  function Upper(s: string): (u: string)
    ensures |u| == |s|
  {
    seq(|s|, i requires 0 <= i < |s| => UpperChar(s[i]))
  }

  function WordToken(text: string): Token {
    var u := Upper(text);
    if u == "AND" then KwAnd
    else if u == "OR" then KwOr
    else if u == "BETWEEN" then KwBetween
    else if u == "IN" then KwIn
    else if u == "LIKE" then KwLike
    else if u == "IS" then KwIs
    else if u == "NOT" then KwNot
    else if u == "NULL" then KwNull
    else Ident(text)
  }

  /** Outcome of reading one token: an error, or the token and the text that follows it. */
  datatype Scan = Bad | Got(tok: Token, rest: string)

  /** The body of a quoted string, from just after the opening quote. */
  function Body(quote: char, s: string): Scan {
    if s == "" then Bad
    else if s[0] == '\\' && |s| > 1 then PushFront(s[1], Body(quote, s[2..]))
    else if s[0] == quote then Got(Quoted(""), s[1..])
    else PushFront(s[0], Body(quote, s[1..]))
  }

  function PushFront(c: char, r: Scan): Scan {
    if r.Got? && r.tok.Quoted? then Got(Quoted([c] + r.tok.text), r.rest) else Bad
  }

  function Operator(s: string): Scan
    requires s != ""
  {
    var next := if |s| > 1 then s[1] else '\0';
    match s[0]
    case '=' => if next == '=' then Got(Op("=="), s[2..]) else Got(Op("="), s[1..])
    case '!' => if next == '=' then Got(Op("!="), s[2..]) else Bad
    case '>' => if next == '=' then Got(Op(">="), s[2..]) else Got(Op(">"), s[1..])
    case '<' =>
      if next == '=' then Got(Op("<="), s[2..])
      else if next == '>' then Got(Op("!="), s[2..])
      else Got(Op("<"), s[1..])
    case _ => Bad
  }

  function Next(cc: Classes, text: string): Scan {
    Dispatch(cc, text[Span(cc.space, text)..])
  }

  predicate OpensOperator(c: char) { c == '=' || c == '!' || c == '>' || c == '<' }

  /** The token at the front of a text with no leading space. */
  function Dispatch(cc: Classes, s: string): Scan {
    if s == "" then Got(EOF, "")
    else if s[0] == '(' then Got(LParen, s[1..])
    else if s[0] == ')' then Got(RParen, s[1..])
    else if s[0] == ',' then Got(Comma, s[1..])
    else if s[0] == '\'' || s[0] == '"' then Body(s[0], s[1..])
    else if OpensOperator(s[0]) then Operator(s)
    else if cc.digit(s[0]) then ReadNumber(cc, s)
    else if cc.IdentStart(s[0]) then ReadWord(cc, s)
    else Bad
  }

  function ReadNumber(cc: Classes, s: string): Scan {
    var k := Span(cc.NumPart, s);
    Got(Number(s[..k]), s[k..])
  }

  function ReadWord(cc: Classes, s: string): Scan {
    var k := Span(cc.IdentPart, s);
    Got(WordToken(s[..k]), s[k..])
  }

  lemma {:induction false} BodyShrinks(quote: char, s: string)
    ensures Body(quote, s).Got? ==> Body(quote, s).tok.Quoted? && |Body(quote, s).rest| < |s|
    decreases |s|
  {
    if s != "" {
      if |s| > 1 { BodyShrinks(quote, s[2..]); }
      BodyShrinks(quote, s[1..]);
    }
  }

  lemma NextShrinks(cc: Classes, text: string)
    ensures var r := Next(cc, text); r.Got? && r.tok != EOF ==> |r.rest| < |text|
  {
    var s := text[Span(cc.space, text)..];
    if s != "" {
      BodyShrinks(s[0], s[1..]);
      if cc.digit(s[0]) { assert Span(cc.NumPart, s) > 0; }
      if cc.IdentStart(s[0]) { assert Span(cc.IdentPart, s) > 0; }
    }
  }

  /** The token list of a text, closed by EOF; None when some character starts no token. */
  function Lex(cc: Classes, text: string): Option<seq<Token>>
    decreases |text|
  {
    match Next(cc, text)
    case Bad => None
    case Got(t, rest) =>
      if t == EOF then Some([EOF])
      else
        NextShrinks(cc, text);
        Prepend([t], Lex(cc, rest))
  }

  function Prepend(ts: seq<Token>, o: Option<seq<Token>>): Option<seq<Token>> {
    if o.Some? then Some(ts + o.value) else None
  }

  lemma PrependTwice(a: seq<Token>, b: seq<Token>, o: Option<seq<Token>>)
    ensures Prepend(a, Prepend(b, o)) == Prepend(a + b, o)
  {
    if o.Some? { assert a + (b + o.value) == (a + b) + o.value; }
  }

  lemma PrependNothing(o: Option<seq<Token>>)
    ensures Prepend([], o) == o
  {
    if o.Some? { assert [] + o.value == o.value; }
  }

  // ---- the lexer object ---------------------------------------------------------------

  method UpperInPlace(s: string) returns (u: string)
    ensures u == Upper(s)
  {
    var out := new char[|s|](i requires 0 <= i < |s| => s[i]);
    for i := 0 to |s|
      invariant forall k :: 0 <= k < i ==> out[k] == UpperChar(s[k])
      invariant forall k :: i <= k < |s| ==> out[k] == s[k]
    {
      if 'a' <= out[i] <= 'z' { out[i] := (out[i] as int - 32) as char; }
    }
    u := out[..];
  }

  class LexerState {
    const cc: Classes
    const src: string
    var pos: nat

    ghost predicate Valid() reads this { pos <= |src| }

    /** What is left to read. */
    ghost function Rest(): string reads this requires Valid() { src[pos..] }

    constructor (cc: Classes, src: string)
      ensures Valid() && pos == 0 && this.cc == cc && this.src == src
    {
      this.cc := cc;
      this.src := src;
      pos := 0;
    }

    method PeekNext() returns (c: char)
      requires Valid()
      ensures c == if pos + 1 < |src| then src[pos + 1] else '\0'
    {
      c := if pos + 1 >= |src| then '\0' else src[pos + 1];
    }

    /** The object's cursor and result after a scan that the specification describes by r. */
    ghost predicate Landed(r: Scan, t: Option<Token>) reads this {
      && Valid()
      && (r.Bad? ==> t == None)
      && (r.Got? ==> t == Some(r.tok) && Rest() == r.rest)
    }

    method SkipSpaces()
      requires Valid()
      modifies this`pos
      ensures Valid() && Rest() == old(Rest())[Span(cc.space, old(Rest()))..]
    {
      ghost var text := Rest();
      while pos < |src| && cc.space(src[pos])
        invariant Valid()
        invariant text[Span(cc.space, text)..] == Rest()[Span(cc.space, Rest())..]
      {
        assert Rest()[1..] == src[pos + 1..];
        pos := pos + 1;
      }
    }

    method NextToken() returns (t: Option<Token>)
      requires Valid()
      modifies this`pos
      ensures Landed(Next(cc, old(Rest())), t)
    {
      hide Span, Dispatch;
      SkipSpaces();
      t := LexHere();
    }

    method LexHere() returns (t: Option<Token>)
      requires Valid()
      modifies this`pos
      ensures Landed(Dispatch(cc, old(Rest())), t)
    {
      hide Body, Operator, ReadNumber, ReadWord;
      if pos >= |src| { return Some(EOF); }
      var r := src[pos];
      assert Rest()[0] == r && Rest()[1..] == src[pos + 1..];
      if r == '(' { pos := pos + 1; return Some(LParen); }
      if r == ')' { pos := pos + 1; return Some(RParen); }
      if r == ',' { pos := pos + 1; return Some(Comma); }
      if r == '\'' || r == '"' { t := LexString(r); return; }
      if OpensOperator(r) { t := LexOp(); return; }
      if cc.digit(r) { t := LexNumber(); return; }
      if cc.IdentStart(r) { t := LexIdent(); return; }
      return None;
    }

    method LexString(quote: char) returns (t: Option<Token>)
      requires Valid() && pos < |src|
      modifies this`pos
      ensures Landed(Body(quote, old(Rest())[1..]), t)
    {
      hide Body, PushAll;
      pos := pos + 1;
      var sb: string := "";
      ghost var whole := Rest();
      PushAllNothing(quote, whole);
      while pos < |src|
        invariant Valid()
        invariant Body(quote, whole) == PushAll(sb, Body(quote, Rest()))
      {
        var c := src[pos];
        assert Rest()[0] == c && Rest()[1..] == src[pos + 1..];
        if c == '\\' && pos + 1 < |src| {
          BodyEscape(quote, sb, Rest());
          assert Rest()[1] == src[pos + 1] && Rest()[2..] == src[pos + 2..];
          sb := sb + [src[pos + 1]];
          pos := pos + 2;
          continue;
        }
        if c == quote {
          BodyClose(quote, sb, Rest());
          pos := pos + 1;
          return Some(Quoted(sb));
        }
        BodyPlain(quote, sb, Rest());
        sb := sb + [c];
        pos := pos + 1;
      }
      BodyOpen(quote, sb);
      return None;
    }

    method LexOp() returns (t: Option<Token>)
      requires Valid() && pos < |src| && OpensOperator(src[pos])
      modifies this`pos
      ensures Landed(Operator(old(Rest())), t)
    {
      var next := PeekNext();
      match src[pos]
      case '=' =>
        if next == '=' { pos := pos + 2; return Some(Op("==")); }
        pos := pos + 1;
        return Some(Op("="));
      case '!' =>
        if next == '=' { pos := pos + 2; return Some(Op("!=")); }
        return None;
      case '>' =>
        if next == '=' { pos := pos + 2; return Some(Op(">=")); }
        pos := pos + 1;
        return Some(Op(">"));
      case _ =>
        if next == '=' { pos := pos + 2; return Some(Op("<=")); }
        if next == '>' { pos := pos + 2; return Some(Op("!=")); }
        pos := pos + 1;
        return Some(Op("<"));
    }

    /** Advances over the longest run of characters satisfying p and returns it. */
    method Take(p: char -> bool) returns (w: string)
      requires Valid()
      modifies this`pos
      ensures Valid()
      ensures var k := Span(p, old(Rest())); w == old(Rest())[..k] && Rest() == old(Rest())[k..]
    {
      var start := pos;
      while pos < |src| && p(src[pos])
        invariant start <= pos <= |src|
        invariant Span(p, src[start..]) == pos - start + Span(p, Rest())
      {
        assert Rest()[1..] == src[pos + 1..];
        pos := pos + 1;
      }
      w := src[start..pos];
    }

    method LexNumber() returns (t: Option<Token>)
      requires Valid()
      modifies this`pos
      ensures Landed(ReadNumber(cc, old(Rest())), t)
    {
      var w := Take(cc.NumPart);
      t := Some(Number(w));
    }

    method LexIdent() returns (t: Option<Token>)
      requires Valid()
      modifies this`pos
      ensures Landed(ReadWord(cc, old(Rest())), t)
    {
      var text := Take(cc.IdentPart);
      var u := UpperInPlace(text);
      match u
      case "AND" => t := Some(KwAnd);
      case "OR" => t := Some(KwOr);
      case "BETWEEN" => t := Some(KwBetween);
      case "IN" => t := Some(KwIn);
      case "LIKE" => t := Some(KwLike);
      case "IS" => t := Some(KwIs);
      case "NOT" => t := Some(KwNot);
      case "NULL" => t := Some(KwNull);
      case _ => t := Some(Ident(text));
    }
  }

  ghost function PushAll(sb: string, r: Scan): Scan {
    if r.Got? && r.tok.Quoted? then Got(Quoted(sb + r.tok.text), r.rest) else Bad
  }

  lemma PushAllMore(sb: string, c: char, r: Scan)
    ensures PushAll(sb, PushFront(c, r)) == PushAll(sb + [c], r)
  {
    if r.Got? && r.tok.Quoted? {
      assert sb + ([c] + r.tok.text) == (sb + [c]) + r.tok.text;
    }
  }

  lemma PushAllNothing(quote: char, s: string)
    ensures PushAll("", Body(quote, s)) == Body(quote, s)
  {
    BodyShrinks(quote, s);
    var r := Body(quote, s);
    if r.Got? { assert "" + r.tok.text == r.tok.text; }
  }

  lemma BodyEscape(quote: char, sb: string, s: string)
    requires |s| > 1 && s[0] == '\\'
    ensures PushAll(sb, Body(quote, s)) == PushAll(sb + [s[1]], Body(quote, s[2..]))
  {
    PushAllMore(sb, s[1], Body(quote, s[2..]));
  }

  lemma BodyClose(quote: char, sb: string, s: string)
    requires s != "" && s[0] == quote && !(s[0] == '\\' && |s| > 1)
    ensures PushAll(sb, Body(quote, s)) == Got(Quoted(sb), s[1..])
  {
    assert sb + "" == sb;
  }

  lemma BodyPlain(quote: char, sb: string, s: string)
    requires s != "" && s[0] != quote && !(s[0] == '\\' && |s| > 1)
    ensures PushAll(sb, Body(quote, s)) == PushAll(sb + [s[0]], Body(quote, s[1..]))
  {
    PushAllMore(sb, s[0], Body(quote, s[1..]));
  }

  lemma BodyOpen(quote: char, sb: string)
    ensures PushAll(sb, Body(quote, "")) == Bad
  {
  }

  method LexAll(cc: Classes, s: string) returns (r: Option<seq<Token>>)
    ensures r == Lex(cc, s)
  {
    var l := new LexerState(cc, s);
    var toks: seq<Token> := [];
    assert l.Rest() == s;
    PrependNothing(Lex(cc, s));
    while true
      invariant l.Valid() && l.cc == cc && l.src == s
      invariant Lex(cc, s) == Prepend(toks, Lex(cc, l.Rest()))
      decreases |s| - l.pos
    {
      NextShrinks(cc, l.Rest());
      var t := l.NextToken();
      if t.None? { return None; }
      if t.value != EOF { PrependTwice(toks, [t.value], Lex(cc, l.Rest())); }
      toks := toks + [t.value];
      if t.value == EOF { return Some(toks); }
    }
  }
}
