/** Insertion sort by a less-than test, as the stable sorts of the engine use it. */
module Sorting {

  /** lt is the strict part of a total preorder. */
  ghost predicate WeakOrder<T(!new)>(lt: (T, T) -> bool) {
    && (forall x, y :: lt(x, y) ==> !lt(y, x))
    && (forall x, y, z :: !lt(y, x) && !lt(z, y) ==> !lt(z, x))
  }

  ghost predicate Ordered<T>(lt: (T, T) -> bool, s: seq<T>) {
    forall i, j :: 0 <= i < j < |s| ==> !lt(s[j], s[i])
  }

  ghost predicate Ascending<T>(lt: (T, T) -> bool, s: seq<T>) {
    forall i, j :: 0 <= i < j < |s| ==> lt(s[i], s[j])
  }

  /** Inserting at the right place keeps a list ordered. */
  lemma InsertedOrdered<T>(lt: (T, T) -> bool, s: seq<T>, i: nat, x: T)
    requires Ordered(lt, s) && i <= |s|
    requires forall k :: 0 <= k < i ==> !lt(x, s[k])
    requires forall k :: i <= k < |s| ==> !lt(s[k], x)
    ensures Ordered(lt, s[..i] + [x] + s[i..])
    ensures multiset(s[..i] + [x] + s[i..]) == multiset(s) + multiset{x}
  {
    assert s == s[..i] + s[i..];
  }

  method Insert<T(!new)>(lt: (T, T) -> bool, s: seq<T>, x: T) returns (t: seq<T>)
    requires WeakOrder(lt) && Ordered(lt, s)
    ensures Ordered(lt, t) && multiset(t) == multiset(s) + multiset{x}
  {
    var i := |s|;
    while i > 0 && lt(x, s[i - 1])
      invariant 0 <= i <= |s|
      invariant forall k :: i <= k < |s| ==> lt(x, s[k])
    {
      i := i - 1;
    }
    forall k | 0 <= k < i ensures !lt(x, s[k]) {
      if k < i - 1 { assert !lt(s[i - 1], s[k]); }
    }
    InsertedOrdered(lt, s, i, x);
    t := s[..i] + [x] + s[i..];
  }

  method Sort<T(!new)>(lt: (T, T) -> bool, s: seq<T>) returns (t: seq<T>)
    requires WeakOrder(lt)
    ensures Ordered(lt, t) && multiset(t) == multiset(s)
  {
    t := [];
    for i := 0 to |s|
      invariant Ordered(lt, t) && multiset(t) == multiset(s[..i])
    {
      assert s[..i + 1] == s[..i] + [s[i]];
      t := Insert(lt, t, s[i]);
    }
    assert s[..|s|] == s;
  }

  lemma SameSize<T>(s: seq<T>, t: seq<T>)
    requires multiset(s) == multiset(t)
    ensures |s| == |t|
  {
    assert |s| == |multiset(s)| && |t| == |multiset(t)|;
  }

  // ---- listings without repetition ---------------------------------------------------------------

  ghost predicate NoRepeats<T(!new)>(s: seq<T>) { forall x :: multiset(s)[x] <= 1 }

  lemma RepeatCounts<T>(s: seq<T>, i: nat, j: nat)
    requires i < j < |s| && s[i] == s[j]
    ensures multiset(s)[s[i]] >= 2
  {
    assert s == s[..j] + s[j..];
    assert s[i] in s[..j] && s[..j][i] == s[i] && s[j..][0] == s[i];
    assert s[i] in multiset(s[..j]) && s[i] in multiset(s[j..]);
  }

  lemma SameMembers<T>(s: seq<T>, t: seq<T>, x: T)
    requires multiset(s) == multiset(t)
    ensures x in s <==> x in t
  {
    assert x in s <==> x in multiset(s);
    assert x in t <==> x in multiset(t);
  }

  /** Ordered, without repetition and comparable throughout: strictly ascending. */
  lemma OrderedAscends<T(!new)>(lt: (T, T) -> bool, s: seq<T>)
    requires Ordered(lt, s) && NoRepeats(s)
    requires forall x, y :: x in s && y in s && x != y ==> lt(x, y) || lt(y, x)
    ensures Ascending(lt, s)
  {
    forall i, j | 0 <= i < j < |s| ensures lt(s[i], s[j]) {
      if s[i] == s[j] { RepeatCounts(s, i, j); }
    }
  }

  // ---- the values of a map ------------------------------------------------------------------------------

  /** s holds exactly the values of m, each once, in some order. */
  ghost predicate Collected<T(!new)>(id: T -> int, s: seq<T>, m: map<int, T>) {
    && NoRepeats(s)
    && (forall x :: x in s ==> id(x) in m && m[id(x)] == x)
    && (forall k :: k in m ==> m[k] in s)
  }

  /** Some element of a set: the order of a Go map range is not specified. */
  method AnyOf(s: set<int>) returns (x: int)
    requires s != {}
    ensures x in s
  {
    assert (forall y :: y !in s) ==> s == {};
    x :| x in s;
  }

  /** Ranges over a map in an arbitrary order and appends what it finds. */
  method Range<T(!new)>(ghost id: T -> int, m: map<int, T>) returns (s: seq<T>)
    requires forall k :: k in m ==> id(m[k]) == k
    ensures Collected(id, s, m)
  {
    s := [];
    var left: set<int> := m.Keys;
    while left != {}
      invariant left <= m.Keys && NoRepeats(s)
      invariant forall x :: x in s ==> id(x) in m && m[id(x)] == x && id(x) !in left
      invariant forall k :: k in m && k !in left ==> m[k] in s
      decreases left
    {
      var k := AnyOf(left);
      assert m[k] !in s && m[k] !in multiset(s);
      s := s + [m[k]];
      left := left - {k};
    }
  }

  lemma StillCollected<T(!new)>(id: T -> int, s: seq<T>, t: seq<T>, m: map<int, T>)
    requires Collected(id, s, m) && multiset(s) == multiset(t)
    ensures Collected(id, t, m)
  {
    forall x ensures x in t <==> x in s { SameMembers(s, t, x); }
  }

  /** Sorted by an order that tells ids apart, the values of a map ascend strictly. */
  lemma CollectedAscends<T(!new)>(id: T -> int, lt: (T, T) -> bool, s: seq<T>, m: map<int, T>)
    requires Collected(id, s, m) && Ordered(lt, s)
    requires forall x, y :: id(x) != id(y) ==> lt(x, y) || lt(y, x)
    ensures Ascending(lt, s)
  {
    forall x, y | x in s && y in s && x != y ensures lt(x, y) || lt(y, x) { assert id(x) != id(y); }
    OrderedAscends(lt, s);
  }

  // ---- at most one listing ---------------------------------------------------------------------------

  ghost predicate StrictOrder<T(!new)>(lt: (T, T) -> bool) {
    && (forall x :: !lt(x, x))
    && (forall x, y, z :: lt(x, y) && lt(y, z) ==> lt(x, z))
  }

  /** The first element comes before all others and is not among them. */
  lemma FirstIsLeast<T(!new)>(lt: (T, T) -> bool, s: seq<T>, x: T)
    requires StrictOrder(lt) && Ascending(lt, s) && s != []
    ensures x in s ==> x == s[0] || lt(s[0], x)
    ensures x in s[1..] <==> x in s && x != s[0]
  {
    assert s == [s[0]] + s[1..];
    if x in s[1..] {
      var k :| 0 <= k < |s[1..]| && s[1..][k] == x;
      assert lt(s[0], s[k + 1]);
    }
  }

  lemma EmptyTogether<T(!new)>(s: seq<T>, t: seq<T>)
    requires forall x :: x in s <==> x in t
    ensures s == [] <==> t == []
  {
    if s != [] { assert s[0] in s; }
    if t != [] { assert t[0] in t; }
  }

  /** A set has at most one strictly sorted listing. */
  lemma {:induction false} SortedUnique<T(!new)>(lt: (T, T) -> bool, s: seq<T>, t: seq<T>)
    requires StrictOrder(lt) && Ascending(lt, s) && Ascending(lt, t)
    requires forall x :: x in s <==> x in t
    ensures s == t
  {
    EmptyTogether(s, t);
    if s != [] {
      assert s[0] in t && t[0] in s;
      FirstIsLeast(lt, s, t[0]);
      FirstIsLeast(lt, t, s[0]);
      forall x ensures x in s[1..] <==> x in t[1..] {
        FirstIsLeast(lt, s, x);
        FirstIsLeast(lt, t, x);
      }
      SortedUnique(lt, s[1..], t[1..]);
      assert s == [s[0]] + s[1..] && t == [t[0]] + t[1..];
    }
  }
}
