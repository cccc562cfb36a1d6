/**
 * What readers of the active rules see while one writer edits them (pkg/engine/cache.go:33-93,
 * pkg/engine/engine.go:88-116): the elementary writes of each edit in the order the code issues
 * them, with a reader looking after any of them.
 */
module Visibility {
  import opened Sorting
  import opened Cache
  import opened Engine

  /** The map, Rebuild's local slice and the published snapshot. */
  datatype View<A> = View(m: map<int, RuleProgram<A>>, scratch: seq<RuleProgram<A>>, snapshot: seq<RuleProgram<A>>)

  /** One write; ranging finds the programs in any order, sorting is any stable or unstable sort. */
  ghost predicate Moves<A(!new)>(v: View<A>, op: CacheOp<A>, v': View<A>) {
    match op
    case StoreOp(p) => v' == v.(m := v.m[p.id := p])
    case DeleteOp(id) => v' == v.(m := v.m - {id})
    case ClearOp => v' == v.(m := map[])
    case RangeOp => v' == v.(scratch := v'.scratch) && Collected(IdOf, v'.scratch, v.m)
    case SortOp =>
      && v' == v.(scratch := v'.scratch)
      && multiset(v'.scratch) == multiset(v.scratch) && Ordered(Before, v'.scratch)
    case SwapOp => v' == v.(snapshot := v.scratch)
  }

  ghost predicate IsHistory<A(!new)>(views: seq<View<A>>, ops: seq<CacheOp<A>>) {
    |views| == |ops| + 1 && forall i :: 0 <= i < |ops| ==> Moves(views[i], ops[i], views[i + 1])
  }

  /** The writes of a list of edits, one edit after the other. */
  function AllSteps<A>(b: Backend<A>, es: seq<Edit>): seq<CacheOp<A>> {
    if es == [] then [] else Steps(b, es[0]) + AllSteps(b, es[1..])
  }

  /** The rule set after a list of edits. */
  function ApplyAll<A>(b: Backend<A>, m: map<int, RuleProgram<A>>, es: seq<Edit>): map<int, RuleProgram<A>>
    decreases es
  {
    if es == [] then m else ApplyAll(b, Apply(b, m, es[0]), es[1..])
  }

  /** How many edits are complete after k writes. */
  function Completed(b: Backend, es: seq<Edit>, k: nat): (n: nat)
    ensures n <= |es|
  {
    if es == [] || |Steps(b, es[0])| > k then 0 else 1 + Completed(b, es[1..], k - |Steps(b, es[0])|)
  }

  lemma HistoryParts<A(!new)>(views: seq<View<A>>, a: seq<CacheOp<A>>, c: seq<CacheOp<A>>)
    requires IsHistory(views, a + c)
    ensures IsHistory(views[..|a| + 1], a) && IsHistory(views[|a|..], c)
  {
    var ops := a + c;
    forall i | 0 <= i < |a| ensures Moves(views[i], a[i], views[i + 1]) { assert ops[i] == a[i]; }
    forall i | 0 <= i < |c| ensures Moves(views[|a| + i], c[i], views[|a| + i + 1]) { assert ops[|a| + i] == c[i]; }
  }

  // ---- within one edit ------------------------------------------------------------------------------------

  /** Only the last write of an edit is a swap. */
  lemma SwapIsLast<A>(b: Backend<A>, e: Edit, i: nat)
    requires i < |Steps(b, e)|
    ensures Steps(b, e)[i] == SwapOp <==> i == |Steps(b, e)| - 1
  {
  }

  /** Until then the published snapshot does not change. */
  lemma {:induction false} SnapshotStays<A(!new)>(b: Backend<A>, e: Edit, views: seq<View<A>>,
                                                      ops: seq<CacheOp<A>>, k: nat)
    requires ops <= Steps(b, e) && IsHistory(views, ops) && k <= |ops| && k < |Steps(b, e)|
    ensures views[k].snapshot == views[0].snapshot
  {
    if k > 0 {
      SnapshotStays(b, e, views, ops, k - 1);
      SwapIsLast(b, e, k - 1);
      assert Moves(views[k - 1], ops[k - 1], views[k - 1 + 1]);
    }
  }

  lemma {:induction false} StoresDone<A(!new)>(progs: seq<RuleProgram<A>>, views: seq<View<A>>)
    requires IsHistory(views, StoreOps(progs)) && Keyed(views[0].m)
    ensures views[|progs|].m == StoreAll(views[0].m, progs) && Keyed(views[|progs|].m)
    decreases |progs|
  {
    if progs != [] {
      var rest := StoreOps(progs[1..]);
      assert StoreOps(progs) == [StoreOp(progs[0])] + rest;
      assert Moves(views[0], StoreOps(progs)[0], views[0 + 1]);
      HistoryParts(views, [StoreOp(progs[0])], rest);
      StoresDone(progs[1..], views[1..]);
    }
  }

  lemma RebuildDone<A(!new)>(views: seq<View<A>>)
    requires IsHistory(views, RebuildOps())
    ensures views[3].m == views[0].m && IsSnapshot(views[3].snapshot, views[0].m)
  {
    var ops := RebuildOps<A>();
    assert Moves(views[0], ops[0], views[0 + 1]);
    assert Moves(views[1], ops[1], views[1 + 1]);
    assert Moves(views[2], ops[2], views[2 + 1]);
    SortedIsSnapshot(views[1].scratch, views[2].scratch, views[0].m);
  }

  /** Writes that leave the map as m, then a rebuild. */
  lemma WritesThenRebuild<A(!new)>(a: seq<CacheOp<A>>, views: seq<View<A>>, m: map<int, RuleProgram<A>>)
    requires IsHistory(views, a + RebuildOps()) && views[|a|].m == m
    ensures var v := views[|a| + 3]; v.m == m && IsSnapshot(v.snapshot, m)
  {
    HistoryParts(views, a, RebuildOps());
    RebuildDone(views[|a|..]);
  }

  lemma ReplaceDone<A(!new)>(progs: seq<RuleProgram<A>>, views: seq<View<A>>)
    requires IsHistory(views, [ClearOp] + StoreOps(progs))
    ensures views[1 + |progs|].m == StoreAll(map[], progs) && Keyed(views[1 + |progs|].m)
  {
    assert Moves(views[0], ([ClearOp] + StoreOps(progs))[0], views[0 + 1]);
    HistoryParts(views, [ClearOp], StoreOps(progs));
    StoresDone(progs, views[1..]);
  }

  /** A whole edit leaves the map it should, and its sorted listing as the snapshot. */
  lemma EditDone<A(!new)>(b: Backend<A>, e: Edit, views: seq<View<A>>)
    requires IsHistory(views, Steps(b, e)) && Keyed(views[0].m) && IsSnapshot(views[0].snapshot, views[0].m)
    ensures var v := views[|Steps(b, e)|];
            v.m == Apply(b, views[0].m, e) && Keyed(v.m) && IsSnapshot(v.snapshot, v.m)
  {
    hide IsSnapshot;
    match e
    case Load(rules) =>
      var progs := CompileRules(b, rules);
      HistoryParts(views, StoreOps(progs), RebuildOps());
      StoresDone(progs, views[..|progs| + 1]);
      WritesThenRebuild(StoreOps(progs), views, StoreAll(views[0].m, progs));
    case Replace(rules) =>
      var progs := CompileRules(b, rules);
      HistoryParts(views, [ClearOp] + StoreOps(progs), RebuildOps());
      ReplaceDone(progs, views[..|progs| + 2]);
      WritesThenRebuild([ClearOp] + StoreOps(progs), views, StoreAll(map[], progs));
    case Add(r) =>
      if Steps(b, e) != [] {
        assert Moves(views[0], Steps(b, e)[0], views[0 + 1]);
        WritesThenRebuild([Steps(b, e)[0]], views, Apply(b, views[0].m, e));
      }
    case Drop(id) =>
      assert Moves(views[0], Steps(b, e)[0], views[0 + 1]);
      WritesThenRebuild([DeleteOp(id)], views, Apply(b, views[0].m, e));
  }

  // ---- any number of edits --------------------------------------------------------------------------------

  lemma {:induction false} ReadersFrom<A(!new)>(b: Backend<A>, es: seq<Edit>, views: seq<View<A>>, k: nat)
    requires k <= |AllSteps(b, es)| && IsHistory(views, AllSteps(b, es)[..k])
    requires Keyed(views[0].m) && IsSnapshot(views[0].snapshot, views[0].m)
    ensures IsSnapshot(views[k].snapshot, ApplyAll(b, views[0].m, es[..Completed(b, es, k)]))
    decreases es
  {
    hide Apply, Moves, Steps, IsSnapshot, Keyed;
    if es != [] {
      var first := Steps(b, es[0]);
      var n := Completed(b, es, k);
      if |first| > k {
        assert AllSteps(b, es)[..k] == first[..k];
        SnapshotStays(b, es[0], views, first[..k], k);
      } else {
        var rest := AllSteps(b, es[1..])[..k - |first|];
        assert AllSteps(b, es)[..k] == first + rest;
        HistoryParts(views, first, rest);
        EditDone(b, es[0], views[..|first| + 1]);
        ReadersFrom(b, es[1..], views[|first|..], k - |first|);
        assert es[..n][0] == es[0] && es[..n][1..] == es[1..][..n - 1];
      }
    }
  }

  /**
   * Whatever edits are made one after the other from an empty cache, and at whatever write a reader
   * looks, the snapshot is the sorted listing of the rule set after exactly the completed edits.
   */
  lemma ReadersSeeFinishedEdits<A(!new)>(b: Backend<A>, es: seq<Edit>, views: seq<View<A>>, k: nat)
    requires k <= |AllSteps(b, es)| && IsHistory(views, AllSteps(b, es)[..k]) && views[0] == View(map[], [], [])
    ensures IsSnapshot(views[k].snapshot, ApplyAll(b, map[], es[..Completed(b, es, k)]))
  {
    ReadersFrom(b, es, views, k);
  }
}
