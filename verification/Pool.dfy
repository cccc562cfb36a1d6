/**
 * The batch worker pool (pkg/engine/workerpool.go:40-107) as a scheduled system: one sender, a
 * bounded jobs channel, N workers with a reused scratch buffer, and the final merge. A schedule is
 * any sequence of actions; the goroutine scheduler picks it.
 */
module Pool {
  import opened Prelude
  import opened Vm
  import opened Cache
  import opened Engine

  /** What the pool has to compute: job i is the sequential match of user i. */
  datatype Batch = Batch(jobs: seq<seq<int>>, workers: nat) {
    function Capacity(): nat { workers * 2 }
  }

  datatype Pc = Idle | Matching(job: nat) | Matched(job: nat) | Exited

  /** A worker: where it is, the address of its scratch buffer, and its own counters. */
  datatype Worker = Worker(pc: Pc, buf: nat, hits: nat, perRule: multiset<int>)

  /** Slices live on the heap; a result slot holds the address of its slice. */
  datatype PoolState = PoolState(
    next: nat, queue: seq<nat>, closed: bool, ws: seq<Worker>, heap: seq<seq<int>>, results: seq<Option<nat>>)

  /** Match may write its buffer in place or, when append outgrows it, move to a new one. */
  datatype Action = Send | Close | Receive(w: nat) | Match(w: nat, grow: bool) | Store(w: nat) | Exit(w: nat)

  function Init(b: Batch): PoolState {
    PoolState(0, [], false,
              seq(b.workers, (w: nat) => Worker(Idle, w, 0, multiset{})),
              seq(b.workers, w => []),
              seq(|b.jobs|, i => None))
  }

  /** The state after an action, or None when the action cannot happen. */
  function Do(b: Batch, s: PoolState, a: Action): Option<PoolState>
    requires Shape(b, s)
  {
    match a
    case Send =>
      if s.next < |b.jobs| && |s.queue| < b.Capacity()
      then Some(s.(next := s.next + 1, queue := s.queue + [s.next])) else None
    case Close =>
      if s.next == |b.jobs| && !s.closed then Some(s.(closed := true)) else None
    case Receive(w) =>
      if w < |s.ws| && s.ws[w].pc.Idle? && s.queue != []
      then Some(s.(queue := s.queue[1..], ws := s.ws[w := s.ws[w].(pc := Matching(s.queue[0]))])) else None
    case Match(w, grow) =>
      if w < |s.ws| && s.ws[w].pc.Matching? then
        var i := s.ws[w].pc.job;
        if grow
        then Some(s.(heap := s.heap + [b.jobs[i]], ws := s.ws[w := s.ws[w].(pc := Matched(i), buf := |s.heap|)]))
        else Some(s.(heap := s.heap[s.ws[w].buf := b.jobs[i]], ws := s.ws[w := s.ws[w].(pc := Matched(i))]))
      else None
    case Store(w) =>
      if w < |s.ws| && s.ws[w].pc.Matched? then
        var i, ids := s.ws[w].pc.job, s.heap[s.ws[w].buf];
        Some(s.(heap := s.heap + [ids],
                results := s.results[i := Some(|s.heap|)],
                ws := s.ws[w := Worker(Idle, s.ws[w].buf, s.ws[w].hits + |ids|, s.ws[w].perRule + multiset(ids))]))
      else None
    case Exit(w) =>
      if w < |s.ws| && s.ws[w].pc.Idle? && s.closed && s.queue == []
      then Some(s.(ws := s.ws[w := s.ws[w].(pc := Exited)])) else None
  }

  /** Indices and addresses are in range. */
  predicate Shape(b: Batch, s: PoolState) {
    && s.next <= |b.jobs| && |s.ws| == b.workers && |s.results| == |b.jobs|
    && (forall w :: 0 <= w < |s.ws| ==> s.ws[w].buf < |s.heap| && (Busy(s.ws[w]) ==> s.ws[w].pc.job < |b.jobs|))
    && (forall k :: 0 <= k < |s.queue| ==> s.queue[k] < |b.jobs|)
    && (forall i :: 0 <= i < |s.results| ==> s.results[i].Some? ==> s.results[i].value < |s.heap|)
  }

  predicate Busy(w: Worker) { w.pc.Matching? || w.pc.Matched? }

  // ---- totals ---------------------------------------------------------------------------------------

  function Hits(ws: seq<Worker>): nat { if ws == [] then 0 else ws[0].hits + Hits(ws[1..]) }
  function PerRule(ws: seq<Worker>): multiset<int> {
    if ws == [] then multiset{} else ws[0].perRule + PerRule(ws[1..])
  }

  /** Results of the jobs that are done. */
  function DoneHits(b: Batch, results: seq<Option<nat>>, n: nat): nat
    requires n <= |b.jobs| && |results| == |b.jobs|
  {
    if n == 0 then 0 else (if results[n - 1].Some? then |b.jobs[n - 1]| else 0) + DoneHits(b, results, n - 1)
  }
  function DoneIds(b: Batch, results: seq<Option<nat>>, n: nat): multiset<int>
    requires n <= |b.jobs| && |results| == |b.jobs|
  {
    if n == 0 then multiset{}
    else (if results[n - 1].Some? then multiset(b.jobs[n - 1]) else multiset{}) + DoneIds(b, results, n - 1)
  }

  lemma {:induction false} TotalsUpdate(ws: seq<Worker>, w: nat, x: Worker)
    requires w < |ws|
    ensures Hits(ws[w := x]) + ws[w].hits == Hits(ws) + x.hits
    ensures PerRule(ws[w := x]) + ws[w].perRule == PerRule(ws) + x.perRule
  {
    if w == 0 {
      assert ws[0 := x][1..] == ws[1..];
    } else {
      var tail, tail' := ws[1..], ws[1..][w - 1 := x];
      assert ws[w := x][1..] == tail';
      TotalsUpdate(tail, w - 1, x);
      var r := ws[0].perRule;
      assert r + PerRule(tail') + ws[w].perRule == r + (PerRule(tail') + ws[w].perRule);
      assert r + PerRule(tail) + x.perRule == r + (PerRule(tail) + x.perRule);
    }
  }

  lemma {:induction false} DoneUpdate(b: Batch, rs: seq<Option<nat>>, i: nat, a: nat, n: nat)
    requires n <= |b.jobs| && |rs| == |b.jobs| && i < |b.jobs| && rs[i] == None
    ensures DoneHits(b, rs[i := Some(a)], n) == DoneHits(b, rs, n) + if i < n then |b.jobs[i]| else 0
    ensures DoneIds(b, rs[i := Some(a)], n) == DoneIds(b, rs, n) + if i < n then multiset(b.jobs[i]) else multiset{}
  {
    if n > 0 { DoneUpdate(b, rs, i, a, n - 1); }
  }

  // ---- the invariant -------------------------------------------------------------------------------------

  /** How many workers hold job i. */
  function Holders(ws: seq<Worker>, i: nat): nat {
    if ws == [] then 0 else (if Busy(ws[0]) && ws[0].pc.job == i then 1 else 0) + Holders(ws[1..], i)
  }

  predicate Holds(w: Worker, i: nat) { Busy(w) && w.pc.job == i }

  lemma {:induction false} HoldersUpdate(ws: seq<Worker>, w: nat, x: Worker, i: nat)
    requires w < |ws|
    ensures Holders(ws[w := x], i) + (if Holds(ws[w], i) then 1 else 0) == Holders(ws, i) + if Holds(x, i) then 1 else 0
  {
    if w == 0 {
      assert ws[0 := x][1..] == ws[1..];
    } else {
      assert ws[w := x][1..] == ws[1..][w - 1 := x];
      HoldersUpdate(ws[1..], w - 1, x, i);
    }
  }

  lemma {:induction false} HeldBy(ws: seq<Worker>, w: nat)
    requires w < |ws| && Busy(ws[w])
    ensures Holders(ws, ws[w].pc.job) >= 1
  {
    if w > 0 { HeldBy(ws[1..], w - 1); }
  }

  lemma {:induction false} NobodyHolds(ws: seq<Worker>, i: nat)
    requires forall w :: 0 <= w < |ws| ==> !Busy(ws[w])
    ensures Holders(ws, i) == 0
  {
    if ws != [] { NobodyHolds(ws[1..], i); }
  }

  function Done(s: PoolState, i: nat): nat { if i < |s.results| && s.results[i].Some? then 1 else 0 }

  /** Copies of job i in the system: in the channel, at a worker, or in its result slot. */
  function Copies(s: PoolState, i: nat): nat { multiset(s.queue)[i] + Holders(s.ws, i) + Done(s, i) }

  /** Every job sent is in exactly one place, and no other job is anywhere. */
  ghost predicate Placed(s: PoolState) {
    forall i: nat :: Copies(s, i) == if i < s.next then 1 else 0
  }

  /** A stored slice is the sequential result and shares no memory with any scratch buffer. */
  ghost predicate Stored(b: Batch, s: PoolState)
    requires Shape(b, s)
  {
    && (forall i :: 0 <= i < |s.results| && s.results[i].Some? ==> s.heap[s.results[i].value] == b.jobs[i])
    && (forall i, w :: 0 <= i < |s.results| && 0 <= w < |s.ws| && s.results[i].Some? ==>
          s.results[i].value != s.ws[w].buf)
    && (forall v, w :: 0 <= v < w < |s.ws| ==> s.ws[v].buf != s.ws[w].buf)
    && (forall w :: 0 <= w < |s.ws| && s.ws[w].pc.Matched? ==> s.heap[s.ws[w].buf] == b.jobs[s.ws[w].pc.job])
  }

  ghost predicate Closing(b: Batch, s: PoolState) {
    && (s.closed ==> s.next == |b.jobs|)
    && (forall w :: 0 <= w < |s.ws| && s.ws[w].pc.Exited? ==> s.closed && s.queue == [])
  }

  ghost predicate Counted(b: Batch, s: PoolState)
    requires Shape(b, s)
  {
    Hits(s.ws) == DoneHits(b, s.results, |b.jobs|) && PerRule(s.ws) == DoneIds(b, s.results, |b.jobs|)
  }

  ghost predicate Inv(b: Batch, s: PoolState) {
    Shape(b, s) && Placed(s) && Stored(b, s) && Closing(b, s) && Counted(b, s)
  }

  lemma {:induction false} NothingYet(b: Batch, ws: seq<Worker>, rs: seq<Option<nat>>, n: nat)
    requires n <= |b.jobs| && |rs| == |b.jobs| && forall i :: 0 <= i < |rs| ==> rs[i] == None
    requires forall w :: 0 <= w < |ws| ==> ws[w].hits == 0 && ws[w].perRule == multiset{}
    ensures Hits(ws) == 0 && PerRule(ws) == multiset{}
    ensures DoneHits(b, rs, n) == 0 && DoneIds(b, rs, n) == multiset{}
    decreases |ws| + n
  {
    if n > 0 { NothingYet(b, ws, rs, n - 1); } else if ws != [] { NothingYet(b, ws[1..], rs, n); }
    if ws != [] && n > 0 { NothingYet(b, ws[1..], rs, n); }
  }

  lemma InitInv(b: Batch)
    ensures Inv(b, Init(b))
  {
    var s := Init(b);
    NothingYet(b, s.ws, s.results, |b.jobs|);
    forall i: nat ensures Copies(s, i) == 0 { NobodyHolds(s.ws, i); }
  }

  /** A change of one worker that keeps its counters keeps the totals. */
  lemma SameTotals(ws: seq<Worker>, w: nat, x: Worker)
    requires w < |ws| && x.hits == ws[w].hits && x.perRule == ws[w].perRule
    ensures Hits(ws[w := x]) == Hits(ws) && PerRule(ws[w := x]) == PerRule(ws)
  {
    TotalsUpdate(ws, w, x);
    var p, p' := PerRule(ws), PerRule(ws[w := x]);
    assert p == (p + x.perRule) - x.perRule && p' == (p' + x.perRule) - x.perRule;
  }

  lemma SendInv(b: Batch, s: PoolState)
    requires Inv(b, s) && Do(b, s, Send).Some?
    ensures Inv(b, Do(b, s, Send).value)
  {
    var s' := Do(b, s, Send).value;
    forall i: nat ensures Copies(s', i) == if i < s'.next then 1 else 0 {
      assert Copies(s, i) == if i < s.next then 1 else 0;
    }
  }

  lemma CloseInv(b: Batch, s: PoolState)
    requires Inv(b, s) && Do(b, s, Close).Some?
    ensures Inv(b, Do(b, s, Close).value)
  {
    var s' := Do(b, s, Close).value;
    forall i: nat ensures Copies(s', i) == Copies(s, i) {}
  }

  lemma ReceiveInv(b: Batch, s: PoolState, w: nat)
    requires Inv(b, s) && Do(b, s, Receive(w)).Some?
    ensures Inv(b, Do(b, s, Receive(w)).value)
  {
    hide Hits, PerRule, Holders, DoneHits, DoneIds;
    var s' := Do(b, s, Receive(w)).value;
    SameTotals(s.ws, w, s'.ws[w]);
    assert s.queue == [s.queue[0]] + s'.queue;
    forall i: nat ensures Copies(s', i) == if i < s'.next then 1 else 0 {
      assert Copies(s, i) == if i < s.next then 1 else 0;
      HoldersUpdate(s.ws, w, s'.ws[w], i);
    }
  }

  lemma MatchInv(b: Batch, s: PoolState, w: nat, grow: bool)
    requires Inv(b, s) && Do(b, s, Match(w, grow)).Some?
    ensures Inv(b, Do(b, s, Match(w, grow)).value)
  {
    hide Hits, PerRule, Holders, DoneHits, DoneIds;
    var s' := Do(b, s, Match(w, grow)).value;
    SameTotals(s.ws, w, s'.ws[w]);
    forall i: nat ensures Copies(s', i) == if i < s'.next then 1 else 0 {
      assert Copies(s, i) == if i < s.next then 1 else 0;
      HoldersUpdate(s.ws, w, s'.ws[w], i);
    }
  }

  lemma StoreInv(b: Batch, s: PoolState, w: nat)
    requires Inv(b, s) && Do(b, s, Store(w)).Some?
    ensures Inv(b, Do(b, s, Store(w)).value)
  {
    hide Hits, PerRule, Holders, DoneHits, DoneIds;
    var s' := Do(b, s, Store(w)).value;
    var j := s.ws[w].pc.job;
    HeldBy(s.ws, w);
    assert Copies(s, j) <= 1;
    assert s.results[j] == None;
    StoreCounted(b, s, w);
    forall i: nat ensures Copies(s', i) == if i < s'.next then 1 else 0 {
      assert Copies(s, i) == if i < s.next then 1 else 0;
      HoldersUpdate(s.ws, w, s'.ws[w], i);
    }
  }

  lemma StoreCounted(b: Batch, s: PoolState, w: nat)
    requires Shape(b, s) && Stored(b, s) && Counted(b, s) && Do(b, s, Store(w)).Some?
    requires s.results[s.ws[w].pc.job] == None
    ensures var s' := Do(b, s, Store(w)).value;
            Hits(s'.ws) == DoneHits(b, s'.results, |b.jobs|) && PerRule(s'.ws) == DoneIds(b, s'.results, |b.jobs|)
  {
    hide Hits, PerRule, Holders, DoneHits, DoneIds;
    var s' := Do(b, s, Store(w)).value;
    var j, was := s.ws[w].pc.job, s.ws[w].perRule;
    TotalsUpdate(s.ws, w, s'.ws[w]);
    DoneUpdate(b, s.results, j, |s.heap|, |b.jobs|);
    var p := PerRule(s'.ws);
    assert p == (p + was) - was;
    assert PerRule(s.ws) + multiset(b.jobs[j]) == (PerRule(s.ws) + (was + multiset(b.jobs[j]))) - was;
  }

  lemma ExitInv(b: Batch, s: PoolState, w: nat)
    requires Inv(b, s) && Do(b, s, Exit(w)).Some?
    ensures Inv(b, Do(b, s, Exit(w)).value)
  {
    hide Hits, PerRule, Holders, DoneHits, DoneIds;
    var s' := Do(b, s, Exit(w)).value;
    SameTotals(s.ws, w, s'.ws[w]);
    forall i: nat ensures Copies(s', i) == if i < s'.next then 1 else 0 {
      assert Copies(s, i) == if i < s.next then 1 else 0;
      HoldersUpdate(s.ws, w, s'.ws[w], i);
    }
  }

  lemma DoInv(b: Batch, s: PoolState, a: Action)
    requires Inv(b, s) && Do(b, s, a).Some?
    ensures Inv(b, Do(b, s, a).value)
  {
    hide Inv;
    match a
    case Send => SendInv(b, s);
    case Close => CloseInv(b, s);
    case Receive(w) => ReceiveInv(b, s, w);
    case Match(w, grow) => MatchInv(b, s, w, grow);
    case Store(w) => StoreInv(b, s, w);
    case Exit(w) => ExitInv(b, s, w);
  }

  // ---- schedules ------------------------------------------------------------------------------------------

  /** The states of a run under a schedule, starting from the initial one. */
  ghost predicate IsRun(b: Batch, states: seq<PoolState>, schedule: seq<Action>) {
    && |states| == |schedule| + 1 && states[0] == Init(b)
    && forall i :: 0 <= i < |schedule| ==> Shape(b, states[i]) && Do(b, states[i], schedule[i]) == Some(states[i + 1])
  }

  lemma {:induction false} RunInv(b: Batch, states: seq<PoolState>, schedule: seq<Action>, i: nat)
    requires IsRun(b, states, schedule) && i <= |schedule|
    ensures Inv(b, states[i])
  {
    if i == 0 {
      InitInv(b);
    } else {
      RunInv(b, states, schedule, i - 1);
      assert Do(b, states[i - 1], schedule[i - 1]) == Some(states[i - 1 + 1]);
      DoInv(b, states[i - 1], schedule[i - 1]);
    }
  }

  predicate Final(b: Batch, s: PoolState) {
    s.closed && forall w :: 0 <= w < |s.ws| ==> s.ws[w].pc.Exited?
  }

  /** Once a result is stored, no later action changes the slice it refers to. */
  lemma ResultsFrozen(b: Batch, s: PoolState, a: Action, i: nat)
    requires Inv(b, s) && Do(b, s, a).Some? && i < |s.results| && s.results[i].Some?
    ensures var s' := Do(b, s, a).value;
            s'.results[i] == s.results[i] && s'.heap[s'.results[i].value] == s.heap[s.results[i].value]
  {
    hide Hits, PerRule, Holders, DoneHits, DoneIds;
    if a.Store? {
      HeldBy(s.ws, a.w);
      assert Copies(s, s.ws[a.w].pc.job) <= 1;
    }
  }

  /** No deadlock: in every reachable state that is not final, some goroutine can move. */
  lemma Progress(b: Batch, s: PoolState) returns (a: Action)
    requires Inv(b, s) && !Final(b, s) && b.workers > 0
    ensures Do(b, s, a).Some?
  {
    if s.next < |b.jobs| && |s.queue| < b.Capacity() {
      a := Send;
    } else if s.next == |b.jobs| && !s.closed {
      a := Close;
    } else {
      var w :| 0 <= w < |s.ws| && (s.closed ==> !s.ws[w].pc.Exited?);
      match s.ws[w].pc
      case Idle => a := if s.queue != [] then Receive(w) else Exit(w);
      case Matching(_) => a := Match(w, false);
      case Matched(_) => a := Store(w);
      case Exited =>
        assert false;
        a := Send;
    }
  }

  function Weight(pc: Pc): nat {
    match pc case Idle => 1 case Matching(_) => 3 case Matched(_) => 2 case Exited => 0
  }

  function Weights(ws: seq<Worker>): nat { if ws == [] then 0 else Weight(ws[0].pc) + Weights(ws[1..]) }

  lemma {:induction false} WeightsUpdate(ws: seq<Worker>, w: nat, x: Worker)
    requires w < |ws|
    ensures Weights(ws[w := x]) + Weight(ws[w].pc) == Weights(ws) + Weight(x.pc)
  {
    if w == 0 {
      assert ws[0 := x][1..] == ws[1..];
    } else {
      assert ws[w := x][1..] == ws[1..][w - 1 := x];
      WeightsUpdate(ws[1..], w - 1, x);
    }
  }

  function Remaining(b: Batch, s: PoolState): nat
    requires Shape(b, s)
  {
    4 * (|b.jobs| - s.next) + 3 * |s.queue| + Weights(s.ws) + if s.closed then 0 else 1
  }

  /** Every action brings the end nearer, so every schedule is finite. */
  lemma ActionsShrink(b: Batch, s: PoolState, a: Action)
    requires Inv(b, s) && Do(b, s, a).Some?
    ensures Shape(b, Do(b, s, a).value) && Remaining(b, Do(b, s, a).value) < Remaining(b, s)
  {
    hide Holders, Hits, PerRule, DoneHits, DoneIds, Placed, Stored, Counted;
    DoInv(b, s, a);
    var s' := Do(b, s, a).value;
    if a.Receive? || a.Match? || a.Store? || a.Exit? { WeightsUpdate(s.ws, a.w, s'.ws[a.w]); }
  }

  // ---- what a finished batch holds ------------------------------------------------------------------------

  function Total(jobs: seq<seq<int>>): nat { if jobs == [] then 0 else |jobs[0]| + Total(jobs[1..]) }

  /** How many jobs contain id. */
  function UsersHit(jobs: seq<seq<int>>, id: int): nat {
    if jobs == [] then 0 else (if id in jobs[0] then 1 else 0) + UsersHit(jobs[1..], id)
  }

  predicate Distinct(s: seq<int>) { forall j, k :: 0 <= j < k < |s| ==> s[j] != s[k] }

  lemma {:induction false} AllDone(b: Batch, rs: seq<Option<nat>>, n: nat, id: int)
    requires n <= |b.jobs| && |rs| == |b.jobs| && forall i :: 0 <= i < |rs| ==> rs[i].Some?
    ensures DoneHits(b, rs, n) == Total(b.jobs[..n]) == |DoneIds(b, rs, n)|
    ensures (forall i :: 0 <= i < |b.jobs| ==> Distinct(b.jobs[i])) ==>
              DoneIds(b, rs, n)[id] == UsersHit(b.jobs[..n], id)
  {
    if n > 0 {
      AllDone(b, rs, n - 1, id);
      assert b.jobs[..n] == b.jobs[..n - 1] + [b.jobs[n - 1]];
      TotalSnoc(b.jobs[..n - 1], b.jobs[n - 1], id);
      if Distinct(b.jobs[n - 1]) { OnceEach(b.jobs[n - 1], id); }
    }
  }

  lemma {:induction false} TotalSnoc(jobs: seq<seq<int>>, job: seq<int>, id: int)
    ensures Total(jobs + [job]) == Total(jobs) + |job|
    ensures UsersHit(jobs + [job], id) == UsersHit(jobs, id) + if id in job then 1 else 0
  {
    if jobs == [] {
      assert jobs + [job] == [job] && [job][1..] == [];
    } else {
      assert (jobs + [job])[0] == jobs[0] && (jobs + [job])[1..] == jobs[1..] + [job];
      TotalSnoc(jobs[1..], job, id);
    }
  }

  lemma {:induction false} OnceEach(s: seq<int>, x: int)
    requires Distinct(s)
    ensures multiset(s)[x] == if x in s then 1 else 0
  {
    if s != [] {
      assert s == [s[0]] + s[1..];
      OnceEach(s[1..], x);
    }
  }

  /**
   * Whatever the schedule, a finished batch holds the sequential result of every user, and the
   * merged counters are the sums over all results.
   */
  lemma BatchIsSequential(b: Batch, states: seq<PoolState>, schedule: seq<Action>, id: int)
    requires IsRun(b, states, schedule) && Final(b, states[|schedule|])
    requires b.workers > 0 || b.jobs == []
    ensures var s := states[|schedule|];
            && Shape(b, s)
            && (forall i :: 0 <= i < |b.jobs| ==> s.results[i].Some? && s.heap[s.results[i].value] == b.jobs[i])
            && Hits(s.ws) == Total(b.jobs) == |PerRule(s.ws)|
            && ((forall i :: 0 <= i < |b.jobs| ==> Distinct(b.jobs[i])) ==>
                  PerRule(s.ws)[id] == UsersHit(b.jobs, id))
  {
    var s := states[|schedule|];
    RunInv(b, states, schedule, |schedule|);
    if b.workers > 0 { assert s.ws[0].pc.Exited?; }
    forall i: nat | i < |b.jobs| ensures s.results[i].Some? {
      NobodyHolds(s.ws, i);
      assert Copies(s, i) == 1;
    }
    AllDone(b, s.results, |b.jobs|, id);
    assert b.jobs[..|b.jobs|] == b.jobs;
  }

  /** The batch an engine runs for a list of rows over its snapshot. */
  function BatchOf<A>(be: Backend<A>, rules: seq<RuleProgram<A>>, rows: seq<Row>, workers: nat): Batch {
    Batch(seq(|rows|, i requires 0 <= i < |rows| => MatchIds(be, rules, rows[i])), workers)
  }

  lemma {:induction false} MatchedFrom<A>(be: Backend<A>, rules: seq<RuleProgram<A>>, row: Row, id: int)
    requires id in MatchIds(be, rules, row)
    ensures exists k :: 0 <= k < |rules| && rules[k].id == id
  {
    if be.eval(row, rules[0].ast) && rules[0].id == id {
    } else {
      MatchedFrom(be, rules[1..], row, id);
      var k :| 0 <= k < |rules[1..]| && rules[1..][k].id == id;
      assert rules[k + 1].id == id;
    }
  }

  lemma {:induction false} MatchDistinct<A>(be: Backend<A>, rules: seq<RuleProgram<A>>, row: Row)
    requires forall j, k :: 0 <= j < k < |rules| ==> rules[j].id != rules[k].id
    ensures Distinct(MatchIds(be, rules, row))
  {
    if rules != [] {
      MatchDistinct(be, rules[1..], row);
      if rules[0].id in MatchIds(be, rules[1..], row) {
        MatchedFrom(be, rules[1..], row, rules[0].id);
      }
    }
  }

  lemma SnapshotIdsDistinct<A>(s: seq<RuleProgram<A>>, m: map<int, RuleProgram<A>>)
    requires IsSnapshot(s, m)
    ensures forall j, k :: 0 <= j < k < |s| ==> s[j].id != s[k].id
  {
    forall j, k | 0 <= j < k < |s| ensures s[j].id != s[k].id {
      assert Before(s[j], s[k]);
      assert s[j] in s && s[k] in s;
    }
  }

  /** MatchBatch over a cache snapshot: each user's result is Match of that user, and a rule's count is its users. */
  lemma PoolRefinesMatch<A>(be: Backend<A>, rules: seq<RuleProgram<A>>, m: map<int, RuleProgram<A>>, rows: seq<Row>,
                            workers: nat, states: seq<PoolState>, schedule: seq<Action>, i: nat, id: int)
    requires IsSnapshot(rules, m) && workers > 0 && i < |rows|
    requires IsRun(BatchOf(be, rules, rows, workers), states, schedule)
    requires Final(BatchOf(be, rules, rows, workers), states[|schedule|])
    ensures var b, s := BatchOf(be, rules, rows, workers), states[|schedule|];
            && Shape(b, s) && s.results[i].Some?
            && s.heap[s.results[i].value] == MatchIds(be, rules, rows[i])
            && Hits(s.ws) == Total(b.jobs) == |PerRule(s.ws)|
            && PerRule(s.ws)[id] == UsersHit(b.jobs, id)
  {
    var b := BatchOf(be, rules, rows, workers);
    SnapshotIdsDistinct(rules, m);
    forall k | 0 <= k < |b.jobs| ensures Distinct(b.jobs[k]) { MatchDistinct(be, rules, rows[k]); }
    BatchIsSequential(b, states, schedule, id);
  }

  // ---- the merge and the worker count ---------------------------------------------------------------------

  method MergePartials(ws: seq<Worker>) returns (hits: nat, perRule: multiset<int>)
    ensures hits == Hits(ws) && perRule == PerRule(ws)
  {
    hits, perRule := 0, multiset{};
    for i := 0 to |ws|
      invariant Hits(ws) == hits + Hits(ws[i..])
      invariant PerRule(ws) == perRule + PerRule(ws[i..])
    {
      assert ws[i..][0] == ws[i] && ws[i..][1..] == ws[i + 1..];
      hits := hits + ws[i].hits;
      perRule := perRule + ws[i].perRule;
    }
  }

  const MAX_CONCURRENT_USERS := 200

  /** Workers Run starts: the requested number (GOMAXPROCS when not positive), at most one per user. */
  method EffectiveWorkers(requested: int, maxProcs: nat, n: nat) returns (workers: nat)
    requires maxProcs > 0
    ensures workers > 0 && (n > 0 ==> workers <= n) && (requested > 0 ==> workers <= requested)
    ensures var asked := if requested > 0 then requested else maxProcs;
            if n == 0 || asked <= n then workers == asked else workers == n
  {
    var w := requested;
    if w <= 0 { w := maxProcs; }
    if n > 0 && w > n { w := n; }
    workers := w;
  }

  /** The smaller of the cap and the number of users; the cap itself for an empty batch. */
  function BoundedCount(n: nat): nat { if 0 < n < MAX_CONCURRENT_USERS then n else MAX_CONCURRENT_USERS }

  method BoundedWorkers(n: nat, maxProcs: nat) returns (workers: nat)
    requires maxProcs > 0
    ensures workers == BoundedCount(n)
  {
    var w := MAX_CONCURRENT_USERS;
    if n > 0 && n < w { w := n; }
    workers := EffectiveWorkers(w, maxProcs, n);
  }

  /** Users being judged at once: never more than there are workers. */
  lemma InProgress(b: Batch, s: PoolState, jobs: set<nat>)
    requires Inv(b, s)
    requires forall i :: i in jobs ==> exists w :: 0 <= w < |s.ws| && Busy(s.ws[w]) && s.ws[w].pc.job == i
    ensures |jobs| <= b.workers
  {
    var all := BusyJobs(s.ws);
    forall i | i in jobs ensures i in all {
      var w :| 0 <= w < |s.ws| && Busy(s.ws[w]) && s.ws[w].pc.job == i;
      InBusyJobs(s.ws, w);
    }
    BusyCount(s.ws);
    SubsetSize(jobs, all);
  }

  /** In every state of every bounded run at most 200 users, and no more than there are, are in progress. */
  lemma BoundedInProgress<A>(be: Backend<A>, rules: seq<RuleProgram<A>>, rows: seq<Row>,
                             states: seq<PoolState>, schedule: seq<Action>, k: nat, jobs: set<nat>)
    requires IsRun(BatchOf(be, rules, rows, BoundedCount(|rows|)), states, schedule) && k <= |schedule|
    requires forall i :: i in jobs ==>
               exists w :: 0 <= w < |states[k].ws| && Busy(states[k].ws[w]) && states[k].ws[w].pc.job == i
    ensures |jobs| <= MAX_CONCURRENT_USERS && |jobs| <= |rows|
  {
    var b, s := BatchOf(be, rules, rows, BoundedCount(|rows|)), states[k];
    RunInv(b, states, schedule, k);
    InProgress(b, s, jobs);
    if rows == [] {
      assert jobs == {};
    }
  }

  function BusyJobs(ws: seq<Worker>): set<nat> {
    if ws == [] then {} else (if Busy(ws[0]) then {ws[0].pc.job} else {}) + BusyJobs(ws[1..])
  }

  lemma {:induction false} InBusyJobs(ws: seq<Worker>, w: nat)
    requires w < |ws| && Busy(ws[w])
    ensures ws[w].pc.job in BusyJobs(ws)
  {
    if w > 0 { InBusyJobs(ws[1..], w - 1); }
  }

  lemma {:induction false} BusyCount(ws: seq<Worker>)
    ensures |BusyJobs(ws)| <= |ws|
  {
    if ws != [] { BusyCount(ws[1..]); }
  }

  lemma {:induction false} SubsetSize(a: set<nat>, b: set<nat>)
    requires a <= b
    ensures |a| <= |b|
  {
    if a != {} {
      assert (forall y :: y !in a) ==> a == {};
      var x :| x in a;
      SubsetSize(a - {x}, b - {x});
    }
  }
}
