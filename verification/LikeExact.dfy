/**
 * The four-way LIKE classification against the LIKE predicate of SQL (section 8.5 of ISO/IEC
 * 9075-2: '%' stands for any text, '_' for any one character).
 */
module LikeExact {
  import opened Vm
  import opened LikePatterns

  /** The general matcher. */
  predicate SqlLike(s: string, p: string)
    decreases |p|, |s|
  {
    if p == "" then s == ""
    else if p[0] == '%' then SqlLike(s, p[1..]) || (s != "" && SqlLike(s[1..], p))
    else s != "" && (p[0] == '_' || p[0] == s[0]) && SqlLike(s[1..], p[1..])
  }

  predicate Plain(s: string) { '%' !in s && '_' !in s }

  function Percents(n: nat): string { seq(n, _ => '%') }

  // ---- a pattern is its core between runs of '%' ---------------------------------------------------

  lemma {:induction false} LeftSplit(p: string) returns (a: nat)
    ensures p == Percents(a) + TrimLeft(p)
    ensures TrimLeft(p) != "" ==> TrimLeft(p)[0] != '%'
    ensures a > 0 <==> p != "" && p[0] == '%'
  {
    if p != "" && p[0] == '%' {
      a := LeftSplit(p[1..]);
      a := a + 1;
      assert p == ['%'] + p[1..] && Percents(a) == ['%'] + Percents(a - 1);
    } else {
      a := 0;
    }
  }

  lemma {:induction false} RightSplit(p: string) returns (b: nat)
    ensures p == TrimRight(p) + Percents(b)
    ensures TrimRight(p) != "" ==> TrimRight(p)[|TrimRight(p)| - 1] != '%' && TrimRight(p)[0] == p[0]
    ensures b > 0 <==> p != "" && p[|p| - 1] == '%'
  {
    if p != "" && p[|p| - 1] == '%' {
      var q := p[..|p| - 1];
      b := RightSplit(q);
      b := b + 1;
      assert p == q + ['%'] && Percents(b) == Percents(b - 1) + ['%'];
    } else {
      b := 0;
    }
  }

  lemma Split(p: string) returns (a: nat, b: nat)
    ensures p == Percents(a) + Trim(p) + Percents(b)
    ensures a > 0 <==> HasPrefix(p, "%")
    ensures Trim(p) != "" ==> (b > 0 <==> HasSuffix(p, "%"))
    ensures Trim(p) == "" ==> b == 0 && (a > 0 <==> HasSuffix(p, "%"))
  {
    a := LeftSplit(p);
    var q := TrimLeft(p);
    b := RightSplit(q);
    assert HasPrefix(p, "%") <==> p != "" && p[0] == '%';
    assert HasSuffix(p, "%") <==> p != "" && p[|p| - 1] == '%';
    assert Trim(p) + Percents(b) == q && (b > 0 ==> Percents(b)[0] == '%');
    if q != "" { assert p[|p| - 1] == q[|q| - 1]; }
    assert Percents(a) + (Trim(p) + Percents(b)) == Percents(a) + Trim(p) + Percents(b);
  }

  // ---- the general matcher on such patterns ----------------------------------------------------------

  lemma {:induction false} LikePercents(s: string, b: nat)
    ensures SqlLike(s, Percents(b)) <==> b > 0 || s == ""
    decreases b, |s|
  {
    if b > 0 {
      assert Percents(b)[1..] == Percents(b - 1);
      LikePercents(s, b - 1);
      if s != "" { LikePercents(s[1..], b); }
    }
  }

  lemma {:induction false} LikePlain(s: string, c: string, r: string)
    requires Plain(c)
    ensures SqlLike(s, c + r) <==> c <= s && SqlLike(s[|c|..], r)
  {
    if c == "" {
      assert c + r == r && s[0..] == s;
    } else {
      assert (c + r)[0] == c[0] && (c + r)[1..] == c[1..] + r;
      if s != "" && s[0] == c[0] {
        LikePlain(s[1..], c[1..], r);
        assert c <= s <==> c[1..] <= s[1..] by { PrefixStep(c, s); }
        if c <= s { assert s[1..][|c| - 1..] == s[|c|..]; }
      }
    }
  }

  lemma PrefixStep(c: string, s: string)
    requires c != "" && s != "" && c[0] == s[0]
    ensures c <= s <==> c[1..] <= s[1..]
  {
    if c[1..] <= s[1..] {
      assert c == [c[0]] + c[1..] && s == [s[0]] + s[1..];
      assert s[1..][..|c| - 1] == c[1..];
    }
    if c <= s { assert s[..|c|][1..] == s[1..][..|c| - 1]; }
  }

  lemma {:induction false} LikeAfterPercents(s: string, a: nat, q: string)
    requires a > 0
    ensures SqlLike(s, Percents(a) + q) <==> exists i :: 0 <= i <= |s| && SqlLike(s[i..], q)
    decreases a, |s|
  {
    var p := Percents(a) + q;
    assert p[0] == '%' && p[1..] == Percents(a - 1) + q;
    if a > 1 { LikeAfterPercents(s, a - 1, q); } else { assert p[1..] == q && s[0..] == s; }
    if s != "" {
      LikeAfterPercents(s[1..], a, q);
      forall i | 0 <= i < |s| ensures s[1..][i..] == s[i + 1..] {}
    }
    if exists i :: 0 <= i <= |s| && SqlLike(s[i..], q) {
      var i :| 0 <= i <= |s| && SqlLike(s[i..], q);
      if i == 0 { assert s[0..] == s; } else { assert s[1..][i - 1..] == s[i..]; }
    }
  }

  lemma LikeCore(s: string, c: string, b: nat)
    requires Plain(c)
    ensures SqlLike(s, c + Percents(b)) <==> c <= s && (b > 0 || |s| == |c|)
  {
    LikePlain(s, c, Percents(b));
    if c <= s { LikePercents(s[|c|..], b); }
  }

  lemma SuffixAt(s: string, c: string)
    ensures HasSuffix(s, c) <==> exists i :: 0 <= i <= |s| && c <= s[i..] && |s[i..]| == |c|
  {
    if HasSuffix(s, c) {
      var i := |s| - |c|;
      assert c <= s[i..] && |s[i..]| == |c|;
    }
  }

  /** Without inner wildcards the engine's test is SQL's, on every subject. */
  lemma LikeRefines(s: string, p: string)
    requires Plain(Trim(p))
    ensures LikeHolds(s, p) <==> SqlLike(s, p)
  {
    hide SqlLike, Trim;
    var a, b := Split(p);
    var c := Trim(p);
    var q := c + Percents(b);
    assert Percents(a) + c + Percents(b) == Percents(a) + q;
    if a == 0 {
      assert Percents(0) + q == q;
      LikeCore(s, c, b);
    } else {
      LikeAfterPercents(s, a, q);
      forall i | 0 <= i <= |s| ensures SqlLike(s[i..], q) <==> c <= s[i..] && (b > 0 || |s[i..]| == |c|) {
        LikeCore(s[i..], c, b);
      }
      SuffixAt(s, c);
      if c == "" {
        assert s[|s|..] == "" && HasPrefix(s[|s|..], c);
        assert SqlLike(s[|s|..], q);
      }
    }
  }

  // ---- with inner wildcards it is not -----------------------------------------------------------------

  /** A pattern matches any text that agrees with it except where it has a wildcard. */
  lemma {:induction false} LikeAligned(s: string, c: string, b: nat)
    requires |s| == |c| && forall i :: 0 <= i < |c| ==> c[i] in "%_" || c[i] == s[i]
    ensures SqlLike(s, c + Percents(b))
  {
    if c == "" {
      assert c + Percents(b) == Percents(b);
      LikePercents(s, b);
    } else {
      var p := c + Percents(b);
      assert p[0] == c[0] && p[1..] == c[1..] + Percents(b);
      LikeAligned(s[1..], c[1..], b);
      if c[0] == '%' {
        SkipPercent(s[1..], p);
      }
    }
  }

  lemma SkipPercent(s: string, p: string)
    requires p != "" && p[0] == '%' && SqlLike(s, p[1..])
    ensures SqlLike(s, p)
  {
  }

  /** The engine's test is SQL's LIKE for every subject exactly when the core has no wildcard. */
  lemma LikeExactlyWhenPlain(p: string)
    ensures (forall s :: LikeHolds(s, p) == SqlLike(s, p)) <==> Plain(Trim(p))
  {
    var c := Trim(p);
    if Plain(c) {
      forall s ensures LikeHolds(s, p) == SqlLike(s, p) { LikeRefines(s, p); }
    } else {
      var j :| 0 <= j < |c| && c[j] in "%_";
      var s := c[j := 'a'];
      WildWitness(p, j);
      assert LikeHolds(s, p) != SqlLike(s, p);
    }
  }

  lemma WildWitness(p: string, j: nat)
    requires j < |Trim(p)| && Trim(p)[j] in "%_"
    ensures var s := Trim(p)[j := 'a']; SqlLike(s, p) && !LikeHolds(s, p)
  {
    hide Trim, TrimLeft, TrimRight;
    var c := Trim(p);
    var s := c[j := 'a'];
    var a, b := Split(p);
    LikeAligned(s, c, b);
    var q := c + Percents(b);
    assert Percents(a) + c + Percents(b) == Percents(a) + q;
    if a == 0 {
      assert Percents(0) + q == q;
    } else {
      LikeAfterPercents(s, a, q);
      assert s[0..] == s;
    }
    assert s[j] != c[j];
    NoLongerHolds(s, c);
  }

  lemma NoLongerHolds(s: string, c: string)
    requires |s| == |c| && s != c
    ensures forall kind :: !LikeTest(kind, s, c)
  {
    assert s[..|c|] == s && s[0..] == s;
  }
}
