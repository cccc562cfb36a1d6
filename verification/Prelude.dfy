/** Small vocabulary shared by every module of the rule-engine model. */
module Prelude {

  datatype Option<+T> = None | Some(value: T)

  /** Go's strings.Join, on any kind of sequence. */
  function Join<T>(parts: seq<seq<T>>, sep: seq<T>): seq<T> {
    if |parts| == 0 then []
    else if |parts| == 1 then parts[0]
    else parts[0] + sep + Join(parts[1..], sep)
  }

  lemma JoinCons<T>(head: seq<T>, rest: seq<seq<T>>, sep: seq<T>)
    ensures Join([head] + rest, sep) == if rest == [] then head else head + (sep + Join(rest, sep))
  {
    assert ([head] + rest)[1..] == rest;
    assert head + sep + Join(rest, sep) == head + (sep + Join(rest, sep));
  }

  /** Length of the longest prefix of s whose characters all satisfy p. */
  function Span(p: char -> bool, s: string): (n: nat)
    ensures n <= |s|
  {
    if s != "" && p(s[0]) then 1 + Span(p, s[1..]) else 0
  }

  lemma {:induction false} SpanExact(p: char -> bool, w: string, rest: string)
    requires forall c :: c in w ==> p(c)
    requires rest == "" || !p(rest[0])
    ensures Span(p, w + rest) == |w|
  {
    if w == "" {
      assert w + rest == rest;
    } else {
      assert (w + rest)[1..] == w[1..] + rest;
      SpanExact(p, w[1..], rest);
    }
  }

  /** Everything in the span satisfies p, and the span cannot be extended. */
  lemma {:induction false} SpanMaximal(p: char -> bool, s: string)
    ensures forall i :: 0 <= i < Span(p, s) ==> p(s[i])
    ensures Span(p, s) < |s| ==> !p(s[Span(p, s)])
  {
    if s != "" && p(s[0]) {
      SpanMaximal(p, s[1..]);
      forall i | 0 <= i < Span(p, s) ensures p(s[i]) {
        if i > 0 { assert s[i] == s[1..][i - 1]; }
      }
    }
  }

  /** Go's byte-wise string order; on valid UTF-8 it is code-point order. */
  predicate StrLess(a: string, b: string) {
    b != "" && (a == "" || a[0] < b[0] || (a[0] == b[0] && StrLess(a[1..], b[1..])))
  }

  // ---- positions picked from a list, in order -------------------------------------------------------

  ghost predicate Increasing(ks: seq<nat>) { forall i, j :: 0 <= i < j < |ks| ==> ks[i] < ks[j] }

  lemma {:induction false} IncreasingBound(ks: seq<nat>, j: nat)
    requires Increasing(ks) && j < |ks|
    ensures j <= ks[j]
  {
    if j > 0 { IncreasingBound(ks, j - 1); }
  }

  /** ks lists exactly the positions of s whose element satisfies keep, in increasing order. */
  ghost predicate Picks<T>(ks: seq<nat>, s: seq<T>, keep: T -> bool) {
    Increasing(ks) && forall k: nat :: k in ks <==> k < |s| && keep(s[k])
  }

  function Shifted(ks: seq<nat>): seq<nat> { seq(|ks|, i requires 0 <= i < |ks| => ks[i] + 1) }

  /** Positions in a tail as positions in the whole list, after position 0 if that is picked too. */
  function PickedCons(first: bool, ks: seq<nat>): seq<nat> { (if first then [0] else []) + Shifted(ks) }

  lemma PicksNone<T>(s: seq<T>, keep: T -> bool)
    requires s == []
    ensures Picks([], s, keep)
  {
  }

  lemma PickedSize(first: bool, ks: seq<nat>)
    ensures |PickedCons(first, ks)| == |ks| + if first then 1 else 0
  {
  }

  lemma PickedAt(first: bool, ks: seq<nat>, j: nat)
    requires j < |PickedCons(first, ks)|
    ensures PickedCons(first, ks)[j] == if !first then ks[j] + 1 else if j == 0 then 0 else ks[j - 1] + 1
  {
  }

  lemma PicksCons<T>(ks: seq<nat>, s: seq<T>, keep: T -> bool)
    requires s != [] && Picks(ks, s[1..], keep)
    ensures Picks(PickedCons(keep(s[0]), ks), s, keep)
  {
    var head: seq<nat> := if keep(s[0]) then [0] else [];
    var out := PickedCons(keep(s[0]), ks);
    forall k: nat ensures k in out <==> k < |s| && keep(s[k]) {
      if k > 0 && k < |s| && keep(s[k]) {
        assert s[1..][k - 1] == s[k] && k - 1 in ks;
        var i :| 0 <= i < |ks| && ks[i] == k - 1;
        assert out[|head| + i] == k;
      }
      if k in Shifted(ks) {
        var i :| 0 <= i < |ks| && Shifted(ks)[i] == k;
        assert ks[i] in ks;
      }
    }
  }
}
