/** The bounded ring of recent latencies and its percentiles (internal/handler/latency.go). */
module Latency {
  import opened Sorting

  /** The last cap observations of a history. */
  function Window(history: seq<int>, cap: nat): (w: seq<int>)
    ensures |w| == if |history| <= cap then |history| else cap
  {
    if |history| <= cap then history else history[|history| - cap..]
  }

  /** Whatever was recorded before it, the window is where the history ends. */
  lemma WindowIsLatest(before: seq<int>, latest: seq<int>)
    ensures Window(before + latest, |latest|) == latest
  {
  }

  predicate Less(x: int, y: int) { x < y }

  // ---- ranks, in rounded arithmetic ------------------------------------------------------------------

  /** All that is used of rounding to float64: it is monotone and keeps zero. */
  ghost predicate Rounding(round: real -> real) {
    round(0.0) == 0.0 && forall x, y :: x <= y ==> round(x) <= round(y)
  }

  function Times(x: real, y: real): real { x * y }

  /** p*float64(size-1)+0.5, rounded at every operation. */
  function Scaled(round: real -> real, p: real, size: nat): real
    requires size > 0
  {
    round(round(Times(round(p), round((size - 1) as real))) + 0.5)
  }

  /** The integer part of that, kept within the slice. */
  function Rank(round: real -> real, p: real, size: nat): int
    requires size > 0
  {
    var i := Scaled(round, p, size).Floor;
    var j := if i < 0 then 0 else i;
    if j >= size then size - 1 else j
  }

  /** Duration.Microseconds, which truncates toward zero. */
  function Micros(d: int): int { if d >= 0 then d / 1000 else -((-d) / 1000) }

  function Millis(round: real -> real, d: int): real { round(round(Micros(d) as real) / 1000.0) }

  lemma TimesMonotone(a: real, b: real, k: real)
    requires a <= b && k >= 0.0
    ensures Times(a, k) <= Times(b, k)
  {
  }

  lemma FloorMonotone(x: real, y: real)
    requires x <= y
    ensures x.Floor <= y.Floor
  {
  }

  lemma ScaledMonotone(round: real -> real, p: real, q: real, size: nat)
    requires Rounding(round) && size > 0 && p <= q
    ensures Scaled(round, p, size) <= Scaled(round, q, size)
  {
    hide Times;
    var k := round((size - 1) as real);
    assert round(p) <= round(q) && k >= round(0.0);
    TimesMonotone(round(p), round(q), k);
  }

  lemma RankInRange(round: real -> real, p: real, q: real, size: nat)
    requires Rounding(round) && size > 0 && p <= q
    ensures 0 <= Rank(round, p, size) <= Rank(round, q, size) < size
  {
    hide Scaled, Rounding;
    ScaledMonotone(round, p, q, size);
    FloorMonotone(Scaled(round, p, size), Scaled(round, q, size));
  }

  lemma DivMonotone(a: nat, b: nat)
    requires a <= b
    ensures 0 <= a / 1000 <= b / 1000
  {
  }

  lemma MicrosMonotone(a: int, b: int)
    requires a <= b
    ensures Micros(a) <= Micros(b)
  {
    if a >= 0 {
      DivMonotone(a, b);
    } else if b < 0 {
      DivMonotone(-b, -a);
    }
  }

  lemma MillisMonotone(round: real -> real, a: int, b: int)
    requires Rounding(round) && a <= b
    ensures Millis(round, a) <= Millis(round, b)
  {
    hide Micros;
    MicrosMonotone(a, b);
    var x, y := round(Micros(a) as real), round(Micros(b) as real);
    ThousandthMonotone(x, y);
  }

  lemma ThousandthMonotone(x: real, y: real)
    requires x <= y
    ensures x / 1000.0 <= y / 1000.0
  {
  }

  /** Percentiles of a sorted window grow with the fraction they are taken at. */
  lemma PercentilesOrdered(round: real -> real, s: seq<int>, p: real, q: real)
    requires Rounding(round) && Ordered(Less, s) && s != [] && p <= q
    ensures 0 <= Rank(round, p, |s|) < |s| && 0 <= Rank(round, q, |s|) < |s|
    ensures Millis(round, s[Rank(round, p, |s|)]) <= Millis(round, s[Rank(round, q, |s|)])
  {
    hide Rank, Millis;
    RankInRange(round, p, q, |s|);
    var i, j := Rank(round, p, |s|), Rank(round, q, |s|);
    assert i < j ==> !Less(s[j], s[i]);
    MillisMonotone(round, s[i], s[j]);
  }

  // ---- what a percentile is ---------------------------------------------------------------------------

  function AtMost(s: seq<int>, d: int): nat {
    if s == [] then 0 else (if s[0] <= d then 1 else 0) + AtMost(s[1..], d)
  }

  function AtLeast(s: seq<int>, d: int): nat {
    if s == [] then 0 else (if s[0] >= d then 1 else 0) + AtLeast(s[1..], d)
  }

  lemma {:induction false} CountsConcat(s: seq<int>, t: seq<int>, d: int)
    ensures AtMost(s + t, d) == AtMost(s, d) + AtMost(t, d) && AtLeast(s + t, d) == AtLeast(s, d) + AtLeast(t, d)
  {
    if s == [] {
      assert s + t == t;
    } else {
      assert (s + t)[1..] == s[1..] + t;
      CountsConcat(s[1..], t, d);
    }
  }

  /** Moving one element to the front changes no count. */
  lemma CountsMove(t: seq<int>, j: nat, d: int)
    requires j < |t|
    ensures var u := [t[j]] + (t[..j] + t[j + 1..]);
            AtMost(t, d) == AtMost(u, d) && AtLeast(t, d) == AtLeast(u, d) && multiset(t) == multiset(u)
  {
    hide AtMost, AtLeast;
    assert t == t[..j] + ([t[j]] + t[j + 1..]);
    CountsConcat(t[..j], [t[j]] + t[j + 1..], d);
    CountsConcat([t[j]], t[j + 1..], d);
    CountsConcat(t[..j], t[j + 1..], d);
    CountsConcat([t[j]], t[..j] + t[j + 1..], d);
  }

  /** Counts do not depend on the order. */
  lemma {:induction false} CountsPermute(s: seq<int>, t: seq<int>, d: int)
    requires multiset(s) == multiset(t)
    ensures AtMost(s, d) == AtMost(t, d) && AtLeast(s, d) == AtLeast(t, d)
  {
    if s == [] {
      SameSize(s, t);
    } else {
      SameMembers(s, t, s[0]);
      var j :| 0 <= j < |t| && t[j] == s[0];
      var rest := t[..j] + t[j + 1..];
      CountsMove(t, j, d);
      assert ([s[0]] + rest)[1..] == rest;
      SameTails(s[0], s[1..], rest);
      assert s == [s[0]] + s[1..];
      CountsPermute(s[1..], rest, d);
    }
  }

  lemma SameTails(x: int, s: seq<int>, t: seq<int>)
    ensures multiset([x] + s) == multiset([x] + t) ==> multiset(s) == multiset(t)
  {
    assert multiset([x] + s) == multiset{x} + multiset(s) && multiset([x] + t) == multiset{x} + multiset(t);
    assert multiset(s) == multiset{x} + multiset(s) - multiset{x};
    assert multiset(t) == multiset{x} + multiset(t) - multiset{x};
  }

  lemma {:induction false} AllAtMost(s: seq<int>, d: int)
    requires forall k :: 0 <= k < |s| ==> s[k] <= d
    ensures AtMost(s, d) == |s|
  {
    if s != [] { AllAtMost(s[1..], d); }
  }

  lemma {:induction false} AllAtLeast(s: seq<int>, d: int)
    requires forall k :: 0 <= k < |s| ==> s[k] >= d
    ensures AtLeast(s, d) == |s|
  {
    if s != [] { AllAtLeast(s[1..], d); }
  }

  /** In a sorted list the element at i has i others at or below it and the rest at or above it. */
  lemma SortedCounts(s: seq<int>, i: nat)
    requires Ordered(Less, s) && i < |s|
    ensures AtMost(s, s[i]) > i && AtLeast(s, s[i]) >= |s| - i
  {
    hide AtMost, AtLeast;
    var d := s[i];
    forall k | 0 <= k <= i ensures s[k] <= d { if k < i { assert !Less(s[i], s[k]); } }
    forall k | i <= k < |s| ensures s[k] >= d { if i < k { assert !Less(s[k], s[i]); } }
    AllAtMost(s[..i + 1], d);
    AllAtLeast(s[i..], d);
    CountsConcat(s[..i + 1], s[i + 1..], d);
    CountsConcat(s[..i], s[i..], d);
    assert s == s[..i + 1] + s[i + 1..] && s == s[..i] + s[i..];
  }

  /** i is x cut to an integer, or the end of the range that x lies beyond. */
  predicate NearestRank(x: real, size: nat, i: nat) {
    && i < size
    && (i == 0 || i as real <= x)
    && (i == size - 1 || x < (i + 1) as real)
  }

  /** q is d nanoseconds in whole microseconds, cut toward zero. */
  predicate Truncates(d: int, q: int) {
    if d >= 0 then q * 1000 <= d < q * 1000 + 1000 else q * 1000 - 1000 < d <= q * 1000
  }

  /** i is what p*(size-1)+0.5, rounded at every operation, is cut to. */
  predicate RankFor(round: real -> real, p: real, size: nat, i: nat) {
    size > 0 && NearestRank(round(round(round(p) * round((size - 1) as real)) + 0.5), size, i)
  }

  /** d has more than i observations at or below it and at least size - i at or above, i being the rank for p. */
  ghost predicate HasRank(round: real -> real, w: seq<int>, p: real, d: int) {
    exists i: nat :: RankFor(round, p, |w|, i) && AtMost(w, d) > i && AtLeast(w, d) >= |w| - i
  }

  /** value is d in milliseconds, by way of whole microseconds. */
  ghost predicate InMillis(round: real -> real, d: int, value: real) {
    exists q :: Truncates(d, q) && value == round(round(q as real) / 1000.0)
  }

  /** value is the p-percentile of the window: the observation of that rank, in milliseconds. */
  ghost predicate IsPercentile(round: real -> real, w: seq<int>, p: real, value: real) {
    exists d :: d in w && HasRank(round, w, p, d) && InMillis(round, d, value)
  }

  /** Without rounding the rank is the integer part of p*(size-1)+0.5. */
  lemma ExactRank(round: real -> real, p: real, size: nat, i: nat)
    requires (forall x :: round(x) == x) && 0.0 <= p <= 1.0 && RankFor(round, p, size, i)
    ensures i as real <= p * (size - 1) as real + 0.5 < (i + 1) as real
  {
    var k := (size - 1) as real;
    TimesMonotone(0.0, p, k);
    TimesMonotone(p, 1.0, k);
  }

  lemma RankIsNearest(round: real -> real, p: real, size: nat)
    requires size > 0
    ensures 0 <= Rank(round, p, size) < size && RankFor(round, p, size, Rank(round, p, size))
  {
  }

  lemma MicrosTruncate(d: int)
    ensures Truncates(d, Micros(d))
  {
  }

  /** What is taken from the sorted window is the percentile of the window. */
  lemma PercentileTaken(round: real -> real, w: seq<int>, s: seq<int>, p: real)
    requires w != [] && Ordered(Less, s) && multiset(s) == multiset(w) && |s| == |w|
    ensures 0 <= Rank(round, p, |s|) < |s|
    ensures IsPercentile(round, w, p, Millis(round, s[Rank(round, p, |s|)]))
  {
    hide Rank, Micros, Truncates, RankFor, AtMost, AtLeast;
    RankIsNearest(round, p, |s|);
    var i: nat := Rank(round, p, |s|);
    var d := s[i];
    MicrosTruncate(d);
    SortedCounts(s, i);
    CountsPermute(s, w, d);
    SameMembers(s, w, d);
    assert HasRank(round, w, p, d) && InMillis(round, d, Millis(round, d));
  }

  // ---- the recorder -----------------------------------------------------------------------------------

  class LatencyRecorder {
    const buf: array<int>
    var idx: nat
    var full: bool
    /** Every observation ever recorded. */
    ghost var history: seq<int>

    /** Read from the oldest slot on, the ring is the window of the history. */
    ghost predicate Valid() reads this, buf {
      && idx < buf.Length
      && (if full then |history| >= buf.Length && buf[idx..] + buf[..idx] == Window(history, buf.Length)
          else |history| == idx && buf[..idx] == history)
    }

    constructor (capacity: int)
      ensures Valid() && fresh(buf) && history == []
      ensures buf.Length == if capacity <= 0 then 4096 else capacity
    {
      var n := if capacity <= 0 then 4096 else capacity;
      buf := new int[n](i => 0);
      idx, full, history := 0, false, [];
    }

    method Record(d: int)
      requires Valid()
      modifies this, buf
      ensures Valid() && history == old(history) + [d]
    {
      ghost var ring := buf[idx..] + buf[..idx];
      ghost var i := idx;
      buf[idx] := d;
      history := history + [d];
      assert buf[..i] == old(buf[..i]) && buf[i + 1..] == old(buf[i + 1..]);
      idx := idx + 1;
      assert buf[..idx] == old(buf[..i]) + [d];
      if idx == buf.Length {
        idx := 0;
        full := true;
        assert buf[0..] + buf[..0] == old(buf[..i]) + [d];
      } else if full {
        assert buf[idx..] + buf[..idx] == ring[1..] + [d];
      }
      if full && old(full) { WindowShifts(old(history), d, buf.Length); }
    }

    method Percentiles(round: real -> real) returns (p50: real, p90: real, p99: real, n: nat)
      requires Valid() && Rounding(round)
      ensures n == |Window(history, buf.Length)|
      ensures n == 0 ==> p50 == p90 == p99 == 0.0
      ensures n > 0 ==>
                && IsPercentile(round, Window(history, buf.Length), 0.5, p50)
                && IsPercentile(round, Window(history, buf.Length), 0.9, p90)
                && IsPercentile(round, Window(history, buf.Length), 0.99, p99)
      ensures p50 <= p90 <= p99
    {
      hide Rank, Millis, IsPercentile;
      var size := if full then buf.Length else idx;
      var w := buf[..size];
      ghost var window := Window(history, buf.Length);
      assert multiset(w) == multiset(window) by {
        if full {
          assert buf[..] == buf[..idx] + buf[idx..] && w == buf[..];
          assert multiset(buf[idx..] + buf[..idx]) == multiset(w);
        }
      }
      var s := Sort(Less, w);
      SameSize(s, w);
      SameSize(s, window);
      n := size;
      if size == 0 { return 0.0, 0.0, 0.0, 0; }
      PercentilesOrdered(round, s, 0.5, 0.9);
      PercentilesOrdered(round, s, 0.9, 0.99);
      PercentileTaken(round, window, s, 0.5);
      PercentileTaken(round, window, s, 0.9);
      PercentileTaken(round, window, s, 0.99);
      p50 := Millis(round, s[Rank(round, 0.5, size)]);
      p90 := Millis(round, s[Rank(round, 0.9, size)]);
      p99 := Millis(round, s[Rank(round, 0.99, size)]);
    }
  }

  /** A full window drops its oldest observation when one is added. */
  lemma WindowShifts(history: seq<int>, d: int, cap: nat)
    requires 0 < cap <= |history|
    ensures Window(history + [d], cap) == Window(history, cap)[1..] + [d]
  {
  }
}
