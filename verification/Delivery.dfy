/**
 * What the consumer's commits add up to (pkg/kafka/consumer.go:256-382): the messages sent for a partition
 * since its assignment tile the records handled, and a flush that got through leaves all of them committed.
 * The protocol of module Kafka is watched by an observer that remembers, beside the state, where each
 * partition was assigned, how far its handlers have come and whether anything was dropped on the way.
 */
module Delivery {
  import opened Prelude
  import opened Kafka

  // ---- the observer ------------------------------------------------------------------------------------

  /**
   * A partition since its assignment: its first offset, the length of the log then, the offset after the last
   * record handled, and whether no enqueue was dropped and no polled record discarded.
   */
  datatype Trail = Trail(start: nat, since: nat, reached: nat, intact: bool)

  /** Beside the trails: for each message whether some attempt took effect, and whether one was reported to. */
  datatype Seen = Seen(trails: map<int, Trail>, applied: seq<bool>, ok: seq<bool>)

  function Broken(o: Seen, p: int): Seen {
    if p in o.trails then o.(trails := o.trails[p := o.trails[p].(intact := false)]) else o
  }

  function Discarded(trails: map<int, Trail>, lost: map<int, nat>): map<int, Trail> {
    map p | p in trails :: if p in lost && lost[p] > 0 then trails[p].(intact := false) else trails[p]
  }

  ghost function Observe(s: State, a: Action, o: Seen): Seen {
    match a
    case Assign(p, start) => o.(trails := o.trails[p := Trail(start, |s.log|, start, true)])
    case PollError(lost) => o.(trails := Discarded(o.trails, lost))
    case RunHandler(p) =>
      if p in o.trails && p in s.workers
      then o.(trails := o.trails[p := o.trails[p].(reached := s.workers[p].cur + 1)]) else o
    case EnterEnqueue(p) => if s.closing then Broken(o, p) else o
    case DropEnqueue(p) => Broken(o, p)
    case Enqueue(_) => if s.closed then o else o.(applied := o.applied + [false], ok := o.ok + [false])
    case SendBarrier => if s.closed then o else o.(applied := o.applied + [false], ok := o.ok + [false])
    case Attempt(applied, reported) =>
      if 0 < s.taken <= |o.applied| == |o.ok| then
        var i := s.taken - 1;
        o.(applied := o.applied[i := o.applied[i] || applied], ok := o.ok[i := o.ok[i] || reported])
      else o
    case _ => o
  }

  ghost function Watch(states: seq<State>, actions: seq<Action>, i: nat): Seen
    requires i <= |actions| && |states| == |actions| + 1
  {
    if i == 0 then Seen(map[], [], []) else Observe(states[i - 1], actions[i - 1], Watch(states, actions, i - 1))
  }

  // ---- tiling --------------------------------------------------------------------------------------------

  /** The messages of p from position since on are consecutive, from start to end. */
  predicate Tiles(log: seq<Task>, p: int, since: nat, start: nat, end: nat) {
    if |log| <= since then start == end
    else
      var t, front := log[|log| - 1], log[..|log| - 1];
      if t.Commit? && t.p == p then t.lo < t.hi == end && Tiles(front, p, since, start, t.lo)
      else Tiles(front, p, since, start, end)
  }

  lemma TilesSnoc(log: seq<Task>, t: Task, p: int, since: nat, start: nat, end: nat)
    requires Tiles(log, p, since, start, end) && since <= |log|
    ensures !(t.Commit? && t.p == p) ==> Tiles(log + [t], p, since, start, end)
    ensures t.Commit? && t.p == p && t.lo == end < t.hi ==> Tiles(log + [t], p, since, start, t.hi)
  {
    var all := log + [t];
    assert all[|all| - 1] == t && all[..|all| - 1] == log;
  }

  /** Message i is one of p's since its assignment. */
  predicate IsTile(log: seq<Task>, p: int, since: nat, i: int) {
    since <= i < |log| && log[i].Commit? && log[i].p == p
  }

  /** Offset o lies in a message of p since its assignment. */
  ghost predicate Sent(log: seq<Task>, p: int, since: nat, o: nat) {
    exists i :: IsTile(log, p, since, i) && log[i].lo <= o < log[i].hi
  }

  lemma TilesFront(log: seq<Task>, p: int, since: nat)
    requires |log| > since
    ensures var t, front := log[|log| - 1], log[..|log| - 1];
            forall i :: IsTile(log, p, since, i) <==>
                          || (i == |log| - 1 && t.Commit? && t.p == p)
                          || (IsTile(front, p, since, i) && log[i] == front[i])
  {
  }

  /** The messages are disjoint, in order and within bounds. */
  lemma {:induction false} TilesApart(log: seq<Task>, p: int, since: nat, start: nat, end: nat)
    requires Tiles(log, p, since, start, end)
    ensures start <= end
    ensures forall i :: IsTile(log, p, since, i) ==> start <= log[i].lo < log[i].hi <= end
    ensures forall i, j :: IsTile(log, p, since, i) && IsTile(log, p, since, j) && i < j ==> log[i].hi <= log[j].lo
  {
    hide IsTile;
    IsTileLength(log, p, since);
    if |log| > since {
      TilesFront(log, p, since);
      var t, front := log[|log| - 1], log[..|log| - 1];
      TilesApart(front, p, since, start, if t.Commit? && t.p == p then t.lo else end);
    }
  }

  lemma IsTileLength(log: seq<Task>, p: int, since: nat)
    ensures forall i :: IsTile(log, p, since, i) ==> since <= i < |log| && log[i].Commit?
  {
  }

  /** Together they hold exactly the offsets from start to end. */
  lemma {:induction false} TilesCover(log: seq<Task>, p: int, since: nat, start: nat, end: nat, o: nat)
    requires Tiles(log, p, since, start, end)
    ensures start <= o < end <==> Sent(log, p, since, o)
  {
    TilesApart(log, p, since, start, end);
    if |log| > since && start <= o < end {
      TilesFront(log, p, since);
      var t, front := log[|log| - 1], log[..|log| - 1];
      var mine := t.Commit? && t.p == p;
      if mine && t.lo <= o {
        assert IsTile(log, p, since, |log| - 1);
      } else {
        TilesCover(front, p, since, start, if mine then t.lo else end, o);
        var i :| IsTile(front, p, since, i) && front[i].lo <= o < front[i].hi;
        assert IsTile(log, p, since, i);
      }
    }
  }

  /** No message of p since its assignment stands from a up to b. */
  ghost predicate NoTile(log: seq<Task>, p: int, since: nat, a: int, b: int) {
    forall j :: a <= j < b ==> !IsTile(log, p, since, j)
  }

  lemma NoTileFront(log: seq<Task>, p: int, since: nat, a: int, b: int)
    requires log != [] && NoTile(log, p, since, a, b)
    ensures NoTile(log[..|log| - 1], p, since, a, b)
  {
    var front := log[..|log| - 1];
    forall j | a <= j < b ensures !IsTile(front, p, since, j) { assert !IsTile(log, p, since, j); }
  }

  lemma {:induction false} TilesNone(log: seq<Task>, p: int, since: nat, start: nat, end: nat)
    requires Tiles(log, p, since, start, end) && NoTile(log, p, since, since, |log|)
    ensures start == end
  {
    if |log| > since {
      assert !IsTile(log, p, since, |log| - 1);
      NoTileFront(log, p, since, since, |log| - 1);
      TilesNone(log[..|log| - 1], p, since, start, end);
    }
  }

  /** The last message ends at end. */
  lemma {:induction false} TilesLast(log: seq<Task>, p: int, since: nat, start: nat, end: nat, i: nat)
    requires Tiles(log, p, since, start, end) && IsTile(log, p, since, i) && NoTile(log, p, since, i + 1, |log|)
    ensures log[i].hi == end
  {
    if i < |log| - 1 {
      assert !IsTile(log, p, since, |log| - 1);
      NoTileFront(log, p, since, i + 1, |log| - 1);
      TilesLast(log[..|log| - 1], p, since, start, end, i);
    }
  }

  /** The first one begins at start. */
  lemma {:induction false} TilesFirst(log: seq<Task>, p: int, since: nat, start: nat, end: nat, i: nat)
    requires Tiles(log, p, since, start, end) && IsTile(log, p, since, i) && NoTile(log, p, since, since, i)
    ensures log[i].lo == start
  {
    var t, front := log[|log| - 1], log[..|log| - 1];
    var end' := if t.Commit? && t.p == p then t.lo else end;
    NoTileFront(log, p, since, since, i);
    if i < |log| - 1 { TilesFirst(front, p, since, start, end', i); } else { TilesNone(front, p, since, start, end'); }
  }

  /** Each begins where the one before it ends. */
  lemma {:induction false} TilesAdjacent(log: seq<Task>, p: int, since: nat, start: nat, end: nat, i: nat, k: nat)
    requires Tiles(log, p, since, start, end) && i < k
    requires IsTile(log, p, since, i) && IsTile(log, p, since, k) && NoTile(log, p, since, i + 1, k)
    ensures log[i].hi == log[k].lo
  {
    var t, front := log[|log| - 1], log[..|log| - 1];
    var end' := if t.Commit? && t.p == p then t.lo else end;
    NoTileFront(log, p, since, i + 1, k);
    if k < |log| - 1 {
      TilesAdjacent(front, p, since, start, end', i, k);
    } else {
      TilesLast(front, p, since, start, end', i);
    }
  }

  // ---- invariant: the messages tile what was handled ------------------------------------------------------

  /** What is enqueued: up to the worker's buffer, or all that was handled once no worker is left. */
  function Enqueued(s: State, p: int, tr: Trail): nat { if p in s.workers then s.workers[p].buf else tr.reached }

  ghost predicate TileOk(s: State, p: int, tr: Trail)
    requires p in s.parts
  {
    && tr.since <= |s.log|
    && (tr.intact ==>
          && Tiles(s.log, p, tr.since, tr.start, Enqueued(s, p, tr))
          && tr.start <= tr.reached
          && (forall o: nat :: tr.start <= o < tr.reached ==> (p, o) in s.handled)
          && Reach(s, p, tr))
  }

  /** Handling is where the worker is, or where fetching is unless a cancelled poll was cut short. */
  predicate Reach(s: State, p: int, tr: Trail)
    requires p in s.parts
  {
    if p in s.workers then tr.reached == s.workers[p].cur
    else tr.reached == s.parts[p].fetch || (s.cancelled && s.main != Polling && tr.reached <= s.parts[p].fetch)
  }

  ghost predicate TilesOk(s: State, o: Seen) {
    forall p :: p in s.parts && s.parts[p].held ==> p in o.trails && TileOk(s, p, o.trails[p])
  }

  /** A step that touches nothing a trail speaks of. */
  lemma TileFrame(s: State, s': State, p: int, tr: Trail)
    requires p in s.parts && p in s'.parts && TileOk(s, p, tr) && s'.log == s.log && s.handled <= s'.handled
    requires s'.parts[p].fetch == s.parts[p].fetch && (p in s'.workers <==> p in s.workers)
    requires p in s.workers ==> s'.workers[p].buf == s.workers[p].buf && s'.workers[p].cur == s.workers[p].cur
    requires (s.cancelled ==> s'.cancelled) && (s'.main == Polling ==> s.main == Polling || !s.cancelled)
    ensures TileOk(s', p, tr)
  {
  }

  lemma WorkerTiles(c: Config, s: State, o: Seen, a: Action)
    requires Inv(c, s) && TilesOk(s, o) && IsWorkerStep(a) && DoWorker(c, s, a).Some?
    ensures TilesOk(DoWorker(c, s, a).value, Observe(s, a, o))
  {
    hide Safe, MonoOk, FetchOk, TasksOk, CommittedOk, CommitOk, Tiles;
    var s', o' := DoWorker(c, s, a).value, Observe(s, a, o);
    assert WorkerOk(c, s, a.p, s.workers[a.p]);
    forall p | p in s'.parts && s'.parts[p].held ensures p in o'.trails && TileOk(s', p, o'.trails[p]) {
      assert TileOk(s, p, o.trails[p]);
      if p != a.p {
        if a.Enqueue? { EnqueueTile(c, s, a.p, p, o.trails[p]); } else { TileFrame(s, s', p, o.trails[p]); }
      } else if a.Enqueue? {
        EnqueueTile(c, s, a.p, p, o.trails[p]);
      } else if a.WorkerTop? || (a.EnterEnqueue? && !s.closing) {
        TileFrame(s, s', p, o.trails[p]);
      }
    }
  }

  predicate IsWorkerStep(a: Action) { a.WorkerTop? || a.RunHandler? || a.EnterEnqueue? || a.Enqueue? || a.DropEnqueue? }

  lemma EnqueueTile(c: Config, s: State, q: int, p: int, tr: Trail)
    requires Inv(c, s) && DoWorker(c, s, Enqueue(q)).Some? && p in s.parts && TileOk(s, p, tr)
    ensures TileOk(DoWorker(c, s, Enqueue(q)).value, p, tr)
  {
    hide Safe, MonoOk, FetchOk, TasksOk, CommittedOk, CommitOk, Tiles;
    var w := s.workers[q];
    assert WorkerOk(c, s, q, w);
    if tr.intact { TilesSnoc(s.log, Commit(q, w.buf, w.cur), p, tr.since, tr.start, Enqueued(s, p, tr)); }
  }

  lemma CommitTiles(c: Config, s: State, o: Seen, a: Action)
    requires TilesOk(s, o) && IsCommitStep(a) && DoCommit(c, s, a).Some?
    ensures TilesOk(DoCommit(c, s, a).value, Observe(s, a, o))
  {
    hide Tiles;
    var s', o' := DoCommit(c, s, a).value, Observe(s, a, o);
    forall p | p in s'.parts && s'.parts[p].held ensures p in o'.trails && TileOk(s', p, o'.trails[p]) {
      TileFrame(s, s', p, o.trails[p]);
    }
  }

  predicate IsCommitStep(a: Action) { a.Take? || a.Stop? || a.Attempt? || a.RetryNow? || a.AbandonRetry? }

  lemma MainTiles(c: Config, s: State, o: Seen, a: Action)
    requires Inv(c, s) && TilesOk(s, o) && DoMain(c, s, a).Some? && !a.SendBarrier? && !a.WaitAll?
    requires !a.PollRecords? && !a.PollError? && !a.Assign?
    ensures TilesOk(DoMain(c, s, a).value, Observe(s, a, o))
  {
    hide Safe, MonoOk, FetchOk, TasksOk, CommittedOk, CommitOk, Tiles, TileOk, NothingPending;
    var s', o' := DoMain(c, s, a).value, Observe(s, a, o);
    forall p | p in s'.parts && s'.parts[p].held ensures p in o'.trails && TileOk(s', p, o'.trails[p]) {
      TileFrame(s, s', p, o.trails[p]);
    }
  }

  lemma BarrierTiles(c: Config, s: State, o: Seen)
    requires Inv(c, s) && TilesOk(s, o) && DoMain(c, s, SendBarrier).Some?
    ensures TilesOk(DoMain(c, s, SendBarrier).value, Observe(s, SendBarrier, o))
  {
    hide Safe, MonoOk, FetchOk, TasksOk, CommittedOk, CommitOk, Tiles;
    var s' := DoMain(c, s, SendBarrier).value;
    forall p | p in s'.parts && s'.parts[p].held ensures p in o.trails && TileOk(s', p, o.trails[p]) {
      var tr := o.trails[p];
      assert TileOk(s, p, tr);
      if tr.intact { TilesSnoc(s.log, Barrier, p, tr.since, tr.start, Enqueued(s, p, tr)); }
    }
  }

  lemma WaitTiles(c: Config, s: State, o: Seen)
    requires Inv(c, s) && TilesOk(s, o) && DoMain(c, s, WaitAll).Some?
    ensures TilesOk(DoMain(c, s, WaitAll).value, o)
  {
    hide Safe, MonoOk, TasksOk, CommittedOk, CommitOk, Tiles;
    var s' := DoMain(c, s, WaitAll).value;
    forall p | p in s'.parts && s'.parts[p].held ensures p in o.trails && TileOk(s', p, o.trails[p]) {
      assert TileOk(s, p, o.trails[p]);
      if p in s.workers { assert WorkerOk(c, s, p, s.workers[p]); }
    }
  }

  lemma PollTiles(c: Config, s: State, o: Seen, counts: map<int, nat>)
    requires Inv(c, s) && TilesOk(s, o) && DoMain(c, s, PollRecords(counts)).Some?
    ensures TilesOk(DoMain(c, s, PollRecords(counts)).value, o)
  {
    hide Safe, MonoOk, TasksOk, CommittedOk, CommitOk, Tiles;
    NoWorkers(c, s);
    var s' := DoMain(c, s, PollRecords(counts)).value;
    forall p | p in s'.parts && s'.parts[p].held ensures p in o.trails && TileOk(s', p, o.trails[p]) {
      assert TileOk(s, p, o.trails[p]);
    }
  }

  lemma PollErrorTiles(c: Config, s: State, o: Seen, lost: map<int, nat>)
    requires Inv(c, s) && TilesOk(s, o) && DoMain(c, s, PollError(lost)).Some?
    ensures TilesOk(DoMain(c, s, PollError(lost)).value, Observe(s, PollError(lost), o))
  {
    hide Safe, MonoOk, TasksOk, CommittedOk, CommitOk, Tiles;
    NoWorkers(c, s);
    var s', o' := DoMain(c, s, PollError(lost)).value, Observe(s, PollError(lost), o);
    forall p | p in s'.parts && s'.parts[p].held ensures p in o'.trails && TileOk(s', p, o'.trails[p]) {
      assert TileOk(s, p, o.trails[p]);
    }
  }

  lemma AssignTiles(c: Config, s: State, o: Seen, q: int, start: nat)
    requires Inv(c, s) && TilesOk(s, o) && DoMain(c, s, Assign(q, start)).Some?
    ensures TilesOk(DoMain(c, s, Assign(q, start)).value, Observe(s, Assign(q, start), o))
  {
    hide Safe, MonoOk, TasksOk, CommittedOk, CommitOk, NothingPending;
    NoWorkers(c, s);
    var s', o' := DoMain(c, s, Assign(q, start)).value, Observe(s, Assign(q, start), o);
    forall p | p in s'.parts && s'.parts[p].held ensures p in o'.trails && TileOk(s', p, o'.trails[p]) {
      if p != q { TileFrame(s, s', p, o.trails[p]); }
    }
  }

  lemma StepTiles(c: Config, s: State, o: Seen, a: Action)
    requires Inv(c, s) && TilesOk(s, o) && Do(c, s, a).Some?
    ensures TilesOk(Do(c, s, a).value, Observe(s, a, o))
  {
    hide Inv, TilesOk, DoWorker, DoCommit, DoMain;
    if IsWorkerStep(a) { WorkerTiles(c, s, o, a); }
    else if IsCommitStep(a) { CommitTiles(c, s, o, a); }
    else {
      match a
      case SendBarrier => BarrierTiles(c, s, o);
      case WaitAll => WaitTiles(c, s, o);
      case PollRecords(counts) => PollTiles(c, s, o, counts);
      case PollError(lost) => PollErrorTiles(c, s, o, lost);
      case Assign(p, start) => AssignTiles(c, s, o, p, start);
      case _ => MainTiles(c, s, o, a);
    }
  }

  // ---- invariant: what the broker holds -------------------------------------------------------------------

  /** The end of the last message of p, among the first k, of which some attempt took effect. */
  function LastApplied(log: seq<Task>, applied: seq<bool>, p: int, since: nat, k: nat): Option<nat>
    requires k <= |log| == |applied|
  {
    if k <= since then None
    else if IsTile(log, p, since, k - 1) && applied[k - 1] then Some(log[k - 1].hi)
    else LastApplied(log, applied, p, since, k - 1)
  }

  lemma {:induction false} LastAppliedSnoc(log: seq<Task>, applied: seq<bool>, t: Task, p: int, since: nat, k: nat)
    requires k <= |log| == |applied|
    ensures LastApplied(log + [t], applied + [false], p, since, k) == LastApplied(log, applied, p, since, k)
    ensures k == |log| ==>
              LastApplied(log + [t], applied + [false], p, since, k + 1) == LastApplied(log, applied, p, since, k)
  {
    if k > since { LastAppliedSnoc(log, applied, t, p, since, k - 1); }
  }

  /** Marking a message of another partition, or one sent before, changes nothing. */
  lemma {:induction false} LastAppliedOther(log: seq<Task>, applied: seq<bool>, i: nat, b: bool,
                                            p: int, since: nat, k: nat)
    requires k <= |log| == |applied| && i < |log| && !IsTile(log, p, since, i)
    ensures LastApplied(log, applied[i := b], p, since, k) == LastApplied(log, applied, p, since, k)
  {
    if k > since { LastAppliedOther(log, applied, i, b, p, since, k - 1); }
  }

  /** Where nothing from i on is marked, marking i makes it the last. */
  lemma {:induction false} LastAppliedMark(log: seq<Task>, applied: seq<bool>, i: nat, p: int, since: nat, k: nat)
    requires i < k <= |log| == |applied| && IsTile(log, p, since, i) && forall j :: i < j < k ==> !applied[j]
    ensures LastApplied(log, applied[i := true], p, since, k) == Some(log[i].hi)
  {
    if k > i + 1 { LastAppliedMark(log, applied, i, p, since, k - 1); }
  }

  lemma {:induction false} LastAppliedNone(log: seq<Task>, applied: seq<bool>, p: int, since: nat, k: nat)
    requires k <= |log| == |applied| && forall j :: since <= j < k ==> !applied[j]
    ensures LastApplied(log, applied, p, since, k) == None
  {
    if k > since { LastAppliedNone(log, applied, p, since, k - 1); }
  }

  /** The committed offset is the end of the last message that took effect, or the start when none did. */
  ghost predicate LedgerAt(s: State, o: Seen, p: int, tr: Trail)
    requires p in s.parts && |o.applied| == |s.log|
  {
    var last := LastApplied(s.log, o.applied, p, tr.since, |s.log|);
    && (last.Some? ==> s.parts[p].committed == last.value)
    && (last.None? && s.parts[p].clean ==> s.parts[p].committed == tr.start)
    && (s.parts[p].clean ==> NoneBefore(s, p, tr.since))
  }

  /** No message of p sent before its assignment is still to be tried. */
  ghost predicate NoneBefore(s: State, p: int, since: nat) {
    forall i :: Returned(s) <= i < since && i < |s.log| && s.log[i].Commit? ==> s.log[i].p != p
  }

  ghost predicate LedgerOk(s: State, o: Seen) {
    && |o.applied| == |o.ok| == |s.log|
    && (forall i :: s.taken <= i < |s.log| ==> !o.applied[i])
    && forall p :: p in s.parts && s.parts[p].held ==> p in o.trails && LedgerAt(s, o, p, o.trails[p])
  }

  lemma LedgerFrame(s: State, s': State, o: Seen, p: int, tr: Trail)
    requires p in s.parts && p in s'.parts && |o.applied| == |s.log| && LedgerAt(s, o, p, tr)
    requires s'.log == s.log && Returned(s) <= Returned(s')
    requires s'.parts[p].committed == s.parts[p].committed && s'.parts[p].clean == s.parts[p].clean
    ensures LedgerAt(s', o, p, tr)
  {
  }

  lemma LedgerAppend(s: State, s': State, o: Seen, o': Seen, t: Task, p: int, tr: Trail)
    requires p in s.parts && |o.applied| == |s.log| && LedgerAt(s, o, p, tr) && tr.since <= |s.log|
    requires s'.log == s.log + [t] && o'.applied == o.applied + [false] && s'.parts == s.parts
    requires Returned(s') == Returned(s)
    ensures LedgerAt(s', o', p, tr)
  {
    LastAppliedSnoc(s.log, o.applied, t, p, tr.since, |s.log|);
  }

  lemma SendLedger(c: Config, s: State, o: Seen, a: Action)
    requires Inv(c, s) && TilesOk(s, o) && LedgerOk(s, o) && (a.Enqueue? || a.SendBarrier?) && Do(c, s, a).Some?
    ensures LedgerOk(Do(c, s, a).value, Observe(s, a, o))
  {
    hide Safe, MonoOk, FetchOk, TasksOk, CommittedOk, WorkersOk, LedgerAt, Tiles;
    var s', o' := Do(c, s, a).value, Observe(s, a, o);
    var t := if a.Enqueue? then Commit(a.p, s.workers[a.p].buf, s.workers[a.p].cur) else Barrier;
    NotClosed(c, s, a);
    forall p | p in s'.parts && s'.parts[p].held ensures p in o'.trails && LedgerAt(s', o', p, o'.trails[p]) {
      assert TileOk(s, p, o.trails[p]);
      LedgerAppend(s, s', o, o', t, p, o.trails[p]);
    }
  }

  lemma NotClosed(c: Config, s: State, a: Action)
    requires Inv(c, s) && (a.Enqueue? || a.SendBarrier?) && Do(c, s, a).Some?
    ensures !s.closed
  {
    hide Safe, MonoOk, FetchOk, TasksOk, CommittedOk, CommitOk;
    if a.Enqueue? { assert s.workers != map[]; }
  }

  lemma AttemptLedger(c: Config, s: State, o: Seen, applied: bool, reported: bool)
    requires Inv(c, s) && LedgerOk(s, o) && DoCommit(c, s, Attempt(applied, reported)).Some?
    ensures LedgerOk(DoCommit(c, s, Attempt(applied, reported)).value, Observe(s, Attempt(applied, reported), o))
  {
    hide Safe, MonoOk, FetchOk, TasksOk, CommittedOk, WorkersOk, LastApplied;
    var a := Attempt(applied, reported);
    var s', o' := DoCommit(c, s, a).value, Observe(s, a, o);
    forall p | p in s'.parts && s'.parts[p].held ensures p in o'.trails && LedgerAt(s', o', p, o'.trails[p]) {
      AttemptLedgerAt(c, s, o, applied, reported, p);
    }
  }

  lemma AttemptLedgerAt(c: Config, s: State, o: Seen, applied: bool, reported: bool, p: int)
    requires Inv(c, s) && LedgerOk(s, o) && DoCommit(c, s, Attempt(applied, reported)).Some?
    requires p in s.parts && s.parts[p].held
    ensures var s', o' := DoCommit(c, s, Attempt(applied, reported)).value, Observe(s, Attempt(applied, reported), o);
            |o'.applied| == |s'.log| && p in s'.parts && LedgerAt(s', o', p, o.trails[p])
  {
    hide Safe, MonoOk, FetchOk, TasksOk, CommittedOk, WorkersOk, LastApplied;
    var tr, i := o.trails[p], s.taken - 1;
    assert LedgerAt(s, o, p, tr);
    var b := o.applied[i] || applied;
    if !applied {
      assert o.applied[i := b] == o.applied;
    } else if IsTile(s.log, p, tr.since, i) {
      LastAppliedMark(s.log, o.applied, i, p, tr.since, |s.log|);
    } else {
      LastAppliedOther(s.log, o.applied, i, b, p, tr.since, |s.log|);
      if s.log[i].p == p { LastAppliedNone(s.log, o.applied, p, tr.since, |s.log|); }
    }
  }

  lemma AssignLedger(c: Config, s: State, o: Seen, q: int, start: nat)
    requires LedgerOk(s, o) && DoMain(c, s, Assign(q, start)).Some?
    ensures LedgerOk(DoMain(c, s, Assign(q, start)).value, Observe(s, Assign(q, start), o))
  {
    var s', o' := DoMain(c, s, Assign(q, start)).value, Observe(s, Assign(q, start), o);
    forall p | p in s'.parts && s'.parts[p].held ensures p in o'.trails && LedgerAt(s', o', p, o'.trails[p]) {
      if p != q { LedgerFrame(s, s', o, p, o.trails[p]); }
    }
  }

  /** Every other step leaves the log and the committed offsets alone. */
  lemma QuietLedger(c: Config, s: State, o: Seen, a: Action)
    requires Inv(c, s) && LedgerOk(s, o) && Do(c, s, a).Some?
    requires !a.Enqueue? && !a.SendBarrier? && !a.Attempt? && !a.Assign?
    ensures LedgerOk(Do(c, s, a).value, Observe(s, a, o))
  {
    hide Inv, LedgerAt;
    var s', o' := Do(c, s, a).value, Observe(s, a, o);
    QuietStep(c, s, a);
    SameTrails(s, a, o);
    forall p | p in s'.parts && s'.parts[p].held ensures p in o'.trails && LedgerAt(s', o', p, o'.trails[p]) {
      OthersDoNotCommit(c, s, a, p);
      LedgerFrame(s, s', o, p, o.trails[p]);
      LedgerSame(s', o, o', p);
    }
  }

  lemma LedgerSame(s: State, o: Seen, o': Seen, p: int)
    requires p in s.parts && p in o.trails && p in o'.trails && o'.applied == o.applied && |o.applied| == |s.log|
    requires o'.trails[p].start == o.trails[p].start && o'.trails[p].since == o.trails[p].since
    requires LedgerAt(s, o, p, o.trails[p])
    ensures LedgerAt(s, o', p, o'.trails[p])
  {
  }

  /** Observing such a step keeps where partitions were assigned. */
  lemma SameTrails(s: State, a: Action, o: Seen)
    requires !a.Enqueue? && !a.SendBarrier? && !a.Attempt? && !a.Assign?
    ensures var o' := Observe(s, a, o);
            && o'.applied == o.applied && o'.ok == o.ok && o'.trails.Keys == o.trails.Keys
            && forall p :: p in o.trails ==>
                 o'.trails[p].start == o.trails[p].start && o'.trails[p].since == o.trails[p].since
  {
  }

  /** Workers that do not send, and the poll loop, leave the channel and the commit worker alone. */
  ghost predicate ChannelSame(s: State, s': State) {
    && s'.log == s.log && s'.attempts == s.attempts && s'.taken == s.taken && s'.cpc == s.cpc
    && (s.cancelled ==> s'.cancelled)
  }

  lemma WorkerChannel(c: Config, s: State, a: Action)
    requires IsWorkerStep(a) && !a.Enqueue? && DoWorker(c, s, a).Some?
    ensures ChannelSame(s, DoWorker(c, s, a).value) && DoWorker(c, s, a).value.parts == s.parts
  {
  }

  lemma MainChannel(c: Config, s: State, a: Action)
    requires DoMain(c, s, a).Some? && !a.SendBarrier?
    ensures ChannelSame(s, DoMain(c, s, a).value)
  {
    hide NothingPending, Room, Advance, Spawn, Release, Send;
  }

  lemma MainHolds(c: Config, s: State, a: Action)
    requires DoMain(c, s, a).Some? && !a.SendBarrier? && !a.Assign?
    ensures var s' := DoMain(c, s, a).value;
            forall p :: p in s'.parts && s'.parts[p].held ==> p in s.parts && s.parts[p].held
  {
    hide NothingPending, Room, Spawn, Send;
    if !MovesParts(a) { PartsStay(c, s, a); }
  }

  lemma QuietStep(c: Config, s: State, a: Action)
    requires Inv(c, s) && Do(c, s, a).Some? && !a.Enqueue? && !a.SendBarrier? && !a.Attempt? && !a.Assign?
    ensures var s' := Do(c, s, a).value;
            && s'.log == s.log && s'.attempts == s.attempts && Returned(s) <= Returned(s') && s.taken <= s'.taken
            && (forall p :: p in s'.parts && s'.parts[p].held ==> p in s.parts && s.parts[p].held)
  {
    if IsWorkerStep(a) {
      hide Inv, DoWorker;
      WorkerChannel(c, s, a);
    } else if IsCommitStep(a) {
      hide Safe, MonoOk, FetchOk, TasksOk, CommittedOk, WorkersOk;
    } else {
      hide Inv, DoMain;
      MainChannel(c, s, a);
      MainHolds(c, s, a);
    }
  }

  lemma StepLedger(c: Config, s: State, o: Seen, a: Action)
    requires Inv(c, s) && TilesOk(s, o) && LedgerOk(s, o) && Do(c, s, a).Some?
    ensures LedgerOk(Do(c, s, a).value, Observe(s, a, o))
  {
    hide Inv, TilesOk, LedgerOk, DoWorker, DoCommit, DoMain;
    match a
    case Enqueue(_) => SendLedger(c, s, o, a);
    case SendBarrier => SendLedger(c, s, o, a);
    case Attempt(applied, reported) => AttemptLedger(c, s, o, applied, reported);
    case Assign(p, start) => AssignLedger(c, s, o, p, start);
    case _ => QuietLedger(c, s, o, a);
  }

  // ---- invariant: retries and batch sizes -----------------------------------------------------------------

  /** Messages not taken yet have not been tried. */
  ghost predicate Untried(s: State, o: Seen)
    requires s.taken <= |o.ok| == |s.attempts| == |s.log|
  {
    forall i :: s.taken <= i < |s.log| ==> s.attempts[i] == 0 && !o.ok[i]
  }

  /** The message in hand has been tried as often as the commit worker counts, without success. */
  ghost predicate InHand(s: State, o: Seen)
    requires s.taken <= |o.ok| == |s.attempts| == |s.log|
  {
    Busy(s) && s.taken > 0 ==>
      && !o.ok[s.taken - 1]
      && s.attempts[s.taken - 1] == if s.cpc.Trying? then s.cpc.attempt else s.cpc.attempt + 1
  }

  /** A message is given up on only after all its retries, or when the consumer is cancelled. */
  ghost predicate GivenUp(c: Config, s: State, o: Seen)
    requires s.taken <= |o.ok| == |s.attempts| == |s.log|
  {
    forall i :: 0 <= i < Returned(s) && s.log[i].Commit? ==> o.ok[i] || s.attempts[i] == c.retries + 1 || s.cancelled
  }

  ghost predicate RetryOk(c: Config, s: State, o: Seen) {
    && s.taken <= |o.applied| == |o.ok| == |s.attempts| == |s.log|
    && Untried(s, o) && InHand(s, o) && GivenUp(c, s, o)
    && (forall i :: 0 <= i < |s.log| ==> s.attempts[i] <= c.retries + 1 && (o.ok[i] ==> o.applied[i]))
  }

  lemma RetryFrame(c: Config, s: State, s': State, o: Seen, o': Seen)
    requires RetryOk(c, s, o) && ChannelSame(s, s') && o'.applied == o.applied && o'.ok == o.ok
    ensures RetryOk(c, s', o')
  {
  }

  lemma RetryAppend(c: Config, s: State, s': State, o: Seen, o': Seen, t: Task)
    requires RetryOk(c, s, o)
    requires s' == s.(log := s.log + [t], attempts := s.attempts + [0], main := s'.main, workers := s'.workers)
    requires o' == o.(applied := o.applied + [false], ok := o.ok + [false])
    ensures RetryOk(c, s', o')
  {
  }

  lemma SendRetry(c: Config, s: State, o: Seen, a: Action)
    requires Inv(c, s) && RetryOk(c, s, o) && Do(c, s, a).Some? && (a.Enqueue? || a.SendBarrier?)
    ensures RetryOk(c, Do(c, s, a).value, Observe(s, a, o))
  {
    hide Inv, RetryOk;
    NotClosed(c, s, a);
    var t := if a.Enqueue? then Commit(a.p, s.workers[a.p].buf, s.workers[a.p].cur) else Barrier;
    RetryAppend(c, s, Do(c, s, a).value, o, Observe(s, a, o), t);
  }

  lemma AttemptRetry(c: Config, s: State, o: Seen, applied: bool, reported: bool)
    requires CommitOk(c, s) && RetryOk(c, s, o) && DoCommit(c, s, Attempt(applied, reported)).Some?
    ensures RetryOk(c, DoCommit(c, s, Attempt(applied, reported)).value, Observe(s, Attempt(applied, reported), o))
  {
  }

  lemma TakeRetry(c: Config, s: State, o: Seen)
    requires CommitOk(c, s) && RetryOk(c, s, o) && DoCommit(c, s, Take).Some?
    ensures RetryOk(c, DoCommit(c, s, Take).value, o)
  {
    hide CommitOk, Untried, InHand, GivenUp;
    TakeTried(c, s, o);
    TakeGivenUp(c, s, o);
  }

  lemma TakeTried(c: Config, s: State, o: Seen)
    requires s.taken <= |o.ok| == |s.attempts| == |s.log| && Untried(s, o) && DoCommit(c, s, Take).Some?
    ensures var s' := DoCommit(c, s, Take).value; s'.taken <= |s.log| && Untried(s', o) && InHand(s', o)
  {
  }

  lemma TakeGivenUp(c: Config, s: State, o: Seen)
    requires s.taken <= |o.ok| == |s.attempts| == |s.log| && GivenUp(c, s, o) && DoCommit(c, s, Take).Some?
    ensures var s' := DoCommit(c, s, Take).value; s'.taken <= |s.log| && GivenUp(c, s', o)
  {
  }

  lemma PauseRetry(c: Config, s: State, o: Seen, a: Action)
    requires CommitOk(c, s) && RetryOk(c, s, o) && (a.Stop? || a.RetryNow? || a.AbandonRetry?)
    requires DoCommit(c, s, a).Some?
    ensures RetryOk(c, DoCommit(c, s, a).value, o)
  {
  }

  lemma CommitRetry(c: Config, s: State, o: Seen, a: Action)
    requires CommitOk(c, s) && RetryOk(c, s, o) && IsCommitStep(a) && DoCommit(c, s, a).Some?
    ensures RetryOk(c, DoCommit(c, s, a).value, Observe(s, a, o))
  {
    hide CommitOk, RetryOk, DoCommit;
    match a
    case Attempt(applied, reported) => AttemptRetry(c, s, o, applied, reported);
    case Take => TakeRetry(c, s, o);
    case _ => PauseRetry(c, s, o, a);
  }

  lemma StepRetry(c: Config, s: State, o: Seen, a: Action)
    requires Inv(c, s) && RetryOk(c, s, o) && Do(c, s, a).Some?
    ensures RetryOk(c, Do(c, s, a).value, Observe(s, a, o))
  {
    hide RetryOk, DoCommit, DoWorker, DoMain;
    hide CommittedOk, TasksOk, WorkersOk, FetchOk, MainOk, CommitOk, MonoOk;
    if a.Enqueue? || a.SendBarrier? {
      SendRetry(c, s, o, a);
    } else if IsCommitStep(a) {
      CommitRetry(c, s, o, a);
    } else {
      if IsWorkerStep(a) { WorkerChannel(c, s, a); } else { MainChannel(c, s, a); }
      SameFlags(s, a, o);
      RetryFrame(c, s, Do(c, s, a).value, o, Observe(s, a, o));
    }
  }

  lemma SameFlags(s: State, a: Action, o: Seen)
    requires !a.Enqueue? && !a.SendBarrier? && !a.Attempt?
    ensures Observe(s, a, o).applied == o.applied && Observe(s, a, o).ok == o.ok
  {
  }

  /** No batch exceeds the batch size, and only the end of a poll or a cancellation makes one smaller. */
  ghost predicate SizesOk(c: Config, s: State) {
    && (forall i :: 0 <= i < |s.log| && s.log[i].Commit? ==> s.log[i].hi <= s.log[i].lo + c.batch)
    && (forall p :: p in s.workers ==> BufferOk(c, s.workers[p]))
  }

  predicate BufferOk(c: Config, w: Worker) {
    && w.cur <= w.buf + c.batch
    && (w.pc == Loop || w.pc == Handle ==> w.cur < w.buf + c.batch)
    && (w.pc == Enter(false) || w.pc == Put(false) ==> w.cur == w.buf + c.batch || w.cur == w.hi)
  }

  lemma WorkerSizes(c: Config, s: State, a: Action)
    requires Inv(c, s) && SizesOk(c, s) && IsWorkerStep(a) && DoWorker(c, s, a).Some? && c.batch > 0
    ensures SizesOk(c, DoWorker(c, s, a).value)
  {
    hide Safe, MonoOk, FetchOk, TasksOk, CommittedOk, CommitOk, MainOk;
    assert WorkerOk(c, s, a.p, s.workers[a.p]) && BufferOk(c, s.workers[a.p]);
  }

  lemma MainSizes(c: Config, s: State, a: Action)
    requires SizesOk(c, s) && DoMain(c, s, a).Some? && c.batch > 0
    ensures SizesOk(c, DoMain(c, s, a).value)
  {
    hide NothingPending, Room, Advance, Release;
    if !a.SendBarrier? { MainChannel(c, s, a); }
  }

  lemma StepSizes(c: Config, s: State, a: Action)
    requires Inv(c, s) && SizesOk(c, s) && Do(c, s, a).Some? && c.batch > 0
    ensures SizesOk(c, Do(c, s, a).value)
  {
    hide Inv, DoWorker, DoMain;
    if IsWorkerStep(a) { WorkerSizes(c, s, a); }
    else if !IsCommitStep(a) { MainSizes(c, s, a); }
  }

  // ---- every run ------------------------------------------------------------------------------------------

  lemma {:induction false} RunSeen(c: Config, partitions: set<int>, states: seq<State>, actions: seq<Action>, i: nat)
    requires c.batch > 0 && IsRun(c, partitions, states, actions) && i <= |actions|
    ensures var s, o := states[i], Watch(states, actions, i);
            TilesOk(s, o) && LedgerOk(s, o) && RetryOk(c, s, o) && SizesOk(c, s)
  {
    hide Inv, Do, Observe;
    if i > 0 {
      hide TilesOk, LedgerOk, RetryOk, SizesOk;
      RunSeen(c, partitions, states, actions, i - 1);
      RunInv(c, partitions, states, actions, i - 1);
      var s, o, a := states[i - 1], Watch(states, actions, i - 1), actions[i - 1];
      assert Do(c, s, a) == Some(states[i - 1 + 1]);
      StepTiles(c, s, o, a);
      StepLedger(c, s, o, a);
      StepRetry(c, s, o, a);
      StepSizes(c, s, a);
    }
  }

  /** A partition that is held and from which nothing was dropped since its assignment. */
  ghost predicate Undropped(s: State, o: Seen, p: int) {
    p in s.parts && s.parts[p].held && p in o.trails && o.trails[p].intact
  }

  /**
   * In every state of every run: the messages of such a partition are consecutive from its first offset to what
   * is enqueued, which is the worker's buffer or, without a worker, the last record handled; unless a cancelled
   * poll was cut short, that is all that was fetched.
   */
  lemma MessagesTile(c: Config, partitions: set<int>, states: seq<State>, actions: seq<Action>, i: nat, p: int)
    requires c.batch > 0 && IsRun(c, partitions, states, actions) && i <= |actions|
    requires Undropped(states[i], Watch(states, actions, i), p)
    ensures var s, tr := states[i], Watch(states, actions, i).trails[p];
            && tr.since <= |s.log|
            && Tiles(s.log, p, tr.since, tr.start, if p in s.workers then s.workers[p].buf else tr.reached)
            && (forall o: nat :: tr.start <= o < tr.reached ==> (p, o) in s.handled)
            && (p in s.workers ==> tr.reached == s.workers[p].cur)
            && (p !in s.workers && !s.cancelled ==> tr.reached == s.parts[p].fetch)
  {
    hide Tiles;
    RunSeen(c, partitions, states, actions, i);
  }

  /** A flush has got through: the barrier of a revoke is closed, or the shutdown drain is complete. */
  predicate FlushDone(s: State) { (s.main.RevokeWait? && s.main.barrier in s.done) || s.main == Exited(true) }

  /** The last message of p since its assignment took effect, or there was none to wait for. */
  ghost predicate LastTookEffect(s: State, o: Seen, p: int)
    requires p in s.parts && p in o.trails && |o.applied| == |s.log|
  {
    var since := o.trails[p].since;
    if NoTile(s.log, p, since, since, |s.log|) then s.parts[p].clean
    else forall i: nat :: IsTile(s.log, p, since, i) && NoTile(s.log, p, since, i + 1, |s.log|) ==> o.applied[i]
  }

  /**
   * When a flush has got through and the last message took effect, the broker's offset is exactly past the last
   * record handled: everything handled since the assignment is committed, and without a cancellation everything
   * fetched is.
   */
  lemma FlushCommitsAll(c: Config, partitions: set<int>, states: seq<State>, actions: seq<Action>, i: nat, p: int)
    requires c.batch > 0 && IsRun(c, partitions, states, actions) && i <= |actions| && FlushDone(states[i])
    requires Undropped(states[i], Watch(states, actions, i), p)
    ensures var s, o := states[i], Watch(states, actions, i);
            |o.applied| == |s.log| &&
            (LastTookEffect(s, o, p) ==>
               && s.parts[p].committed == o.trails[p].reached
               && (!s.cancelled ==> s.parts[p].committed == s.parts[p].fetch))
  {
    hide Inv;
    RunSeen(c, partitions, states, actions, i);
    RunInv(c, partitions, states, actions, i);
    var s, o := states[i], Watch(states, actions, i);
    NoWorkers(c, s);
    var tr := o.trails[p];
    assert TileOk(s, p, tr) && LedgerAt(s, o, p, tr);
    if LastTookEffect(s, o, p) {
      if NoTile(s.log, p, tr.since, tr.since, |s.log|) {
        TilesNone(s.log, p, tr.since, tr.start, tr.reached);
        NothingApplied(s.log, o.applied, p, tr.since, |s.log|);
      } else {
        var k := LastTile(s.log, p, tr.since, |s.log|);
        TilesLast(s.log, p, tr.since, tr.start, tr.reached, k);
        AppliedIsLast(s.log, o.applied, p, tr.since, k, |s.log|);
      }
    }
  }

  lemma {:induction false} LastTile(log: seq<Task>, p: int, since: nat, n: nat) returns (k: nat)
    requires n <= |log| && !NoTile(log, p, since, since, n)
    ensures k < n && IsTile(log, p, since, k) && NoTile(log, p, since, k + 1, n)
  {
    if n > 0 && IsTile(log, p, since, n - 1) { k := n - 1; } else { k := LastTile(log, p, since, n - 1); }
  }

  lemma {:induction false} NothingApplied(log: seq<Task>, applied: seq<bool>, p: int, since: nat, k: nat)
    requires k <= |log| == |applied| && NoTile(log, p, since, since, k)
    ensures LastApplied(log, applied, p, since, k) == None
  {
    if k > since { NothingApplied(log, applied, p, since, k - 1); }
  }

  lemma {:induction false} AppliedIsLast(log: seq<Task>, applied: seq<bool>, p: int, since: nat, i: nat, k: nat)
    requires i < k <= |log| == |applied| && IsTile(log, p, since, i) && applied[i] && NoTile(log, p, since, i + 1, k)
    ensures LastApplied(log, applied, p, since, k) == Some(log[i].hi)
  {
    if k > i + 1 { AppliedIsLast(log, applied, p, since, i, k - 1); }
  }

  /**
   * Retries in every run: a message is tried at most once more than the retry limit, and its processing ends
   * only with a reported success, with all those attempts made, or in a cancelled consumer.
   */
  lemma RetriesAreExact(c: Config, partitions: set<int>, states: seq<State>, actions: seq<Action>, i: nat, k: nat)
    requires c.batch > 0 && IsRun(c, partitions, states, actions) && i <= |actions|
    requires k < |states[i].log| && states[i].log[k].Commit?
    ensures var s, o := states[i], Watch(states, actions, i);
            && |o.ok| == |s.attempts| == |s.log| && s.attempts[k] <= c.retries + 1
            && (k < Returned(s) ==> o.ok[k] || s.attempts[k] == c.retries + 1 || s.cancelled)
  {
    RunSeen(c, partitions, states, actions, i);
  }

  /** Batches in every run: never larger than the batch size; smaller only at the end of a poll or when cancelled. */
  lemma BatchSizes(c: Config, partitions: set<int>, states: seq<State>, actions: seq<Action>, i: nat, p: int)
    requires c.batch > 0 && IsRun(c, partitions, states, actions) && i < |actions| && actions[i] == Enqueue(p)
    ensures var s, s' := states[i], states[i + 1];
            && p in s.workers && s'.log != []
            && var w, t := s.workers[p], s'.log[|s'.log| - 1];
               && s'.log == s.log + [t] && t == Commit(p, w.buf, w.cur)
               && w.cur <= w.buf + c.batch
               && (w.cur < w.buf + c.batch ==> w.cur == w.hi || s.cancelled)
  {
    hide Safe, MonoOk, FetchOk, TasksOk, CommittedOk, CommitOk;
    RunSeen(c, partitions, states, actions, i);
    RunInv(c, partitions, states, actions, i);
    var s := states[i];
    assert Do(c, s, actions[i]) == Some(states[i + 1]);
    NotClosed(c, s, actions[i]);
    assert WorkerOk(c, s, p, s.workers[p]) && BufferOk(c, s.workers[p]);
  }

  // ---- no deadlock ----------------------------------------------------------------------------------------

  /** Every barrier taken from the channel is closed, and a revoke waits for a barrier. */
  ghost predicate BarriersClosed(s: State) {
    && (forall i :: 0 <= i < s.taken && i < |s.log| && s.log[i].Barrier? ==> i in s.done)
    && (s.main.RevokeWait? ==> s.main.barrier < |s.log| && s.log[s.main.barrier].Barrier?)
  }

  lemma WorkerBarriers(c: Config, s: State, a: Action)
    requires BarriersClosed(s) && IsWorkerStep(a) && DoWorker(c, s, a).Some? && s.taken <= |s.log|
    ensures BarriersClosed(DoWorker(c, s, a).value)
  {
  }

  lemma TakeBarriers(c: Config, s: State)
    requires BarriersClosed(s) && DoCommit(c, s, Take).Some?
    ensures BarriersClosed(DoCommit(c, s, Take).value)
  {
  }

  lemma CommitBarriers(c: Config, s: State, a: Action)
    requires BarriersClosed(s) && IsCommitStep(a) && DoCommit(c, s, a).Some?
    ensures BarriersClosed(DoCommit(c, s, a).value)
  {
    if a.Take? {
      hide BarriersClosed, DoCommit;
      TakeBarriers(c, s);
    } else {
      var s' := DoCommit(c, s, a).value;
      assert s'.log == s.log && s'.taken == s.taken && s'.done == s.done && s'.main == s.main;
    }
  }

  lemma MainBarriers(c: Config, s: State, a: Action)
    requires BarriersClosed(s) && s.taken <= |s.log| && DoMain(c, s, a).Some? && !(a.SendBarrier? && s.closed)
    ensures BarriersClosed(DoMain(c, s, a).value)
  {
    hide NothingPending, Room, Advance, Spawn, Release;
    MainDone(c, s, a);
    if !a.SendBarrier? { MainChannel(c, s, a); }
  }

  lemma StepBarriers(c: Config, s: State, a: Action)
    requires Inv(c, s) && BarriersClosed(s) && Do(c, s, a).Some?
    ensures BarriersClosed(Do(c, s, a).value)
  {
    hide DoWorker, DoCommit, DoMain, BarriersClosed;
    hide CommittedOk, TasksOk, WorkersOk, FetchOk, MainOk, MonoOk;
    if a.SendBarrier? { NotClosed(c, s, a); }
    if IsWorkerStep(a) { WorkerBarriers(c, s, a); }
    else if IsCommitStep(a) { CommitBarriers(c, s, a); }
    else { MainBarriers(c, s, a); }
  }

  lemma MainDone(c: Config, s: State, a: Action)
    requires DoMain(c, s, a).Some?
    ensures DoMain(c, s, a).value.done == s.done
  {
    hide NothingPending, Room, Advance, Spawn, Release;
  }

  lemma {:induction false} RunBarriers(c: Config, partitions: set<int>, states: seq<State>,
                                       actions: seq<Action>, i: nat)
    requires c.batch > 0 && IsRun(c, partitions, states, actions) && i <= |actions|
    ensures BarriersClosed(states[i])
  {
    hide Inv, Do;
    if i > 0 {
      hide BarriersClosed;
      RunBarriers(c, partitions, states, actions, i - 1);
      RunInv(c, partitions, states, actions, i - 1);
      assert Do(c, states[i - 1], actions[i - 1]) == Some(states[i - 1 + 1]);
      StepBarriers(c, states[i - 1], actions[i - 1]);
    }
  }

  /** A step of the consumer in its ordinary course: no timeout, no cancellation, no dropped work, no rebalance. */
  predicate Ordinary(a: Action) {
    || a.CheckCtx? || a.PollEmpty? || a.WaitAll? || a.AllowDone? || a.SendBarrier? || a.BarrierDone?
    || a.WorkerTop? || a.RunHandler? || a.EnterEnqueue? || a.Enqueue?
    || a.DrainStart? || a.CloseChannel? || a.DrainComplete?
    || a.Take? || a.Stop? || a.Attempt? || a.RetryNow?
  }

  /** While it has anything to do, the commit worker can move. */
  lemma CommitMoves(c: Config, s: State) returns (a: Action)
    requires Inv(c, s) && s.cpc != Stopped && (Busy(s) || s.taken < |s.log| || s.closed)
    ensures Ordinary(a) && Do(c, s, a).Some?
  {
    hide Safe, MonoOk, FetchOk, WorkersOk, CommittedOk;
    match s.cpc
    case Trying(_) =>
      a := Attempt(true, true);
      assert s.log[s.taken - 1].p in s.parts;
    case Backoff(_) => a := RetryNow;
    case Ready => a := if s.taken < |s.log| then Take else Stop;
  }

  lemma WorkerMoves(c: Config, s: State, p: int) returns (a: Action)
    requires Inv(c, s) && c.cap > 0 && p in s.workers && s.workers[p].pc != Finished
    ensures Ordinary(a) && Do(c, s, a).Some?
  {
    hide Safe, MonoOk, FetchOk, TasksOk, CommittedOk;
    assert WorkerOk(c, s, p, s.workers[p]);
    match s.workers[p].pc
    case Loop => a := WorkerTop(p);
    case Handle => a := RunHandler(p);
    case Enter(_) => a := EnterEnqueue(p);
    case Put(_) => if Room(c, s) { a := Enqueue(p); } else { a := CommitMoves(c, s); }
    case Finished => assert false;
  }

  lemma MainMoves(c: Config, s: State) returns (a: Action)
    requires Inv(c, s) && BarriersClosed(s) && c.cap > 0 && !s.main.Exited? && s.workers == map[]
    ensures Ordinary(a) && Do(c, s, a).Some?
  {
    hide Safe, MonoOk, FetchOk, TasksOk, CommittedOk, WorkersOk;
    match s.main
    case Top => a := CheckCtx;
    case Polling => a := PollEmpty;
    case Processing => a := WaitAll;
    case Allowing => a := AllowDone;
    case RevokeSend(_) => if Room(c, s) { a := SendBarrier; } else { a := CommitMoves(c, s); }
    case RevokeWait(_, b) =>
      if b in s.done { a := BarrierDone; } else { a := BarrierAhead(c, s, b); }
    case Draining => a := DrainStart;
    case ClosingCh => a := CloseChannel;
    case Waiting => if s.cpc == Stopped { a := DrainComplete; } else { a := CommitMoves(c, s); }
    case Exited(_) => assert false;
  }

  lemma BarrierAhead(c: Config, s: State, b: nat) returns (a: Action)
    requires Inv(c, s) && BarriersClosed(s) && s.main.RevokeWait? && s.main.barrier == b && b !in s.done
    ensures Ordinary(a) && Do(c, s, a).Some?
  {
    hide Safe, MonoOk, FetchOk, TasksOk, CommittedOk, WorkersOk;
    a := CommitMoves(c, s);
  }

  /**
   * In every reachable state short of the exit some ordinary step is possible: no handler, full channel, pending
   * retry or waiting barrier blocks the consumer for good, and no timeout is needed to get it moving.
   */
  lemma Progress(c: Config, partitions: set<int>, states: seq<State>, actions: seq<Action>, i: nat) returns (a: Action)
    requires c.batch > 0 && c.cap > 0 && IsRun(c, partitions, states, actions) && i <= |actions|
    requires !states[i].main.Exited?
    ensures Ordinary(a) && Do(c, states[i], a).Some?
  {
    hide Inv, Do, Ordinary;
    RunInv(c, partitions, states, actions, i);
    RunBarriers(c, partitions, states, actions, i);
    var s := states[i];
    if p :| p in s.workers && s.workers[p].pc != Finished {
      a := WorkerMoves(c, s, p);
    } else if s.workers != map[] {
      a := WaitAll;
      AllWaited(c, s);
    } else {
      a := MainMoves(c, s);
    }
  }

  lemma AllWaited(c: Config, s: State)
    requires Inv(c, s) && s.workers != map[] && forall p :: p in s.workers ==> s.workers[p].pc == Finished
    ensures Ordinary(WaitAll) && Do(c, s, WaitAll).Some?
  {
    hide Safe, MonoOk, FetchOk, TasksOk, CommittedOk, CommitOk;
  }
}
