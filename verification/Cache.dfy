/** Rules, compiled rules and the compiled-rule cache (pkg/model/rule.go, pkg/engine/cache.go). */
module Cache {
  import opened Sorting

  datatype Rule = Rule(id: int, name: string, expr: string, priority: int, version: int, enabled: bool)

  datatype RuleProgram<A> = RuleProgram(id: int, name: string, source: string, priority: int, version: int, ast: A)

  // ---- snapshots ---------------------------------------------------------------------------------------

  /** Higher priority first, then smaller id. */
  predicate Before<A>(p: RuleProgram<A>, q: RuleProgram<A>) {
    p.priority > q.priority || (p.priority == q.priority && p.id < q.id)
  }

  function IdOf<A>(p: RuleProgram<A>): int { p.id }

  ghost predicate Keyed<A>(m: map<int, RuleProgram<A>>) { forall id :: id in m ==> m[id].id == id }

  /** s lists exactly the programs of m, in strict order. */
  ghost predicate IsSnapshot<A>(s: seq<RuleProgram<A>>, m: map<int, RuleProgram<A>>) {
    && Ascending(Before, s)
    && (forall p :: p in s ==> p.id in m && m[p.id] == p)
    && (forall id :: id in m ==> m[id] in s)
  }

  /** A snapshot runs from high to low priority, and by increasing id within a priority. */
  lemma SnapshotOrder<A>(s: seq<RuleProgram<A>>, m: map<int, RuleProgram<A>>, i: nat, j: nat)
    requires IsSnapshot(s, m) && i < j < |s|
    ensures s[i].priority >= s[j].priority && (s[i].priority == s[j].priority ==> s[i].id < s[j].id)
  {
    assert Before(s[i], s[j]);
  }

  /** The snapshot is determined by the map, whatever order the map was ranged over in. */
  lemma SnapshotUnique<A(!new)>(s: seq<RuleProgram<A>>, t: seq<RuleProgram<A>>, m: map<int, RuleProgram<A>>)
    requires Keyed(m) && IsSnapshot(s, m) && IsSnapshot(t, m)
    ensures s == t
  {
    SortedUnique(Before, s, t);
  }

  /** Sorting the programs of a map, found in any order, gives its snapshot. */
  lemma SortedIsSnapshot<A(!new)>(s: seq<RuleProgram<A>>, t: seq<RuleProgram<A>>, m: map<int, RuleProgram<A>>)
    requires Collected(IdOf, s, m) && multiset(s) == multiset(t) && Ordered(Before, t)
    ensures IsSnapshot(t, m)
  {
    StillCollected(IdOf, s, t, m);
    CollectedAscends(IdOf, Before, t, m);
  }

  /** The elementary writes of the cache; Rebuild ranges over the map, sorts what it found and swaps it in. */
  datatype CacheOp<A> = StoreOp(p: RuleProgram<A>) | DeleteOp(id: int) | ClearOp | RangeOp | SortOp | SwapOp

  function StoreOps<A>(progs: seq<RuleProgram<A>>): seq<CacheOp<A>> {
    seq(|progs|, i requires 0 <= i < |progs| => StoreOp(progs[i]))
  }

  function RebuildOps<A>(): seq<CacheOp<A>> { [RangeOp, SortOp, SwapOp] }

  class RuleCache<A(!new)> {
    var m: map<int, RuleProgram<A>>
    var snapshot: seq<RuleProgram<A>>
    /** Every elementary write so far, in order. */
    ghost var trace: seq<CacheOp<A>>

    /** Between edits the snapshot is the sorted listing of the map. */
    ghost predicate Valid() reads this { Keyed(m) && IsSnapshot(snapshot, m) }

    constructor ()
      ensures Valid() && m == map[] && snapshot == [] && trace == []
    {
      m, snapshot, trace := map[], [], [];
    }

    method Put(p: RuleProgram<A>)
      modifies this`m, this`trace
      ensures m == old(m)[p.id := p] && trace == old(trace) + [StoreOp(p)]
    {
      m := m[p.id := p];
      trace := trace + [StoreOp(p)];
    }

    method PutAll(progs: seq<RuleProgram<A>>)
      requires Keyed(m)
      modifies this
      ensures Valid() && m == StoreAll(old(m), progs)
      ensures trace == old(trace) + StoreOps(progs) + RebuildOps()
    {
      for i := 0 to |progs|
        invariant Keyed(m) && StoreAll(old(m), progs) == StoreAll(m, progs[i..])
        invariant trace == old(trace) + StoreOps(progs[..i])
      {
        assert progs[i..][0] == progs[i] && progs[i..][1..] == progs[i + 1..];
        assert StoreOps(progs[..i + 1]) == StoreOps(progs[..i]) + [StoreOp(progs[i])];
        m := m[progs[i].id := progs[i]];
        trace := trace + [StoreOp(progs[i])];
      }
      assert progs[..|progs|] == progs;
      Rebuild();
    }

    method ReplaceAll(progs: seq<RuleProgram<A>>)
      modifies this
      ensures Valid() && m == StoreAll(map[], progs)
      ensures trace == old(trace) + [ClearOp] + StoreOps(progs) + RebuildOps()
    {
      m := map[];
      trace := trace + [ClearOp];
      PutAll(progs);
    }

    method Delete(id: int)
      modifies this`m, this`trace
      ensures m == old(m) - {id} && trace == old(trace) + [DeleteOp(id)]
    {
      m := m - {id};
      trace := trace + [DeleteOp(id)];
    }

    method Rebuild()
      requires Keyed(m)
      modifies this`snapshot, this`trace
      ensures Valid() && trace == old(trace) + RebuildOps()
    {
      var progs := Range(IdOf, m);
      trace := trace + [RangeOp];
      var sorted := Sort(Before, progs);
      trace := trace + [SortOp];
      SortedIsSnapshot(progs, sorted, m);
      snapshot := sorted;
      trace := trace + [SwapOp];
    }
  }

  /** A map after storing the programs in order; a later one with the same id wins. */
  function StoreAll<A>(m: map<int, RuleProgram<A>>, progs: seq<RuleProgram<A>>): map<int, RuleProgram<A>>
    decreases progs
  {
    if progs == [] then m else StoreAll(m[progs[0].id := progs[0]], progs[1..])
  }

  /** After storing, an id has the last program given for it, or what it had. */
  lemma {:induction false} StoredIsLast<A>(m: map<int, RuleProgram<A>>, progs: seq<RuleProgram<A>>, id: int)
    ensures id in StoreAll(m, progs) <==> id in m || exists p :: p in progs && p.id == id
    ensures forall i :: 0 <= i < |progs| && progs[i].id == id && (forall j :: i < j < |progs| ==> progs[j].id != id) ==>
              StoreAll(m, progs)[id] == progs[i]
    ensures id in m && (forall p :: p in progs ==> p.id != id) ==> StoreAll(m, progs)[id] == m[id]
    decreases progs
  {
    if progs != [] {
      assert progs == [progs[0]] + progs[1..];
      StoredIsLast(m[progs[0].id := progs[0]], progs[1..], id);
      forall i | 0 <= i < |progs| && progs[i].id == id && (forall j :: i < j < |progs| ==> progs[j].id != id)
        ensures StoreAll(m, progs)[id] == progs[i] {
        if i > 0 {
          assert progs[1..][i - 1] == progs[i];
        } else {
          forall p | p in progs[1..] ensures p.id != id {
            var j :| 0 <= j < |progs[1..]| && progs[1..][j] == p;
            assert progs[j + 1] == p;
          }
        }
      }
    }
  }
}
