/**
 * The consumer's manual batch-commit protocol (pkg/kafka/consumer.go:162-463) as a state machine
 * over arbitrary interleavings: the poll loop, one worker per partition of the current poll, the
 * bounded commit channel, the serial commit worker with retries, the revoke barrier and the
 * shutdown drain. Broker, client and timers are the environment: they choose among the actions.
 */
module Kafka {
  import opened Prelude

  /** batch: commitBatchSize; cap: commitChanCap; retries: commitMaxRetry. */
  datatype Config = Config(
    batch: nat, cap: nat, retries: nat,
    lossy: bool,    // whether a poll that reports an error may carry records, which run() then discards
    hurried: bool)  // whether a revoke may give up its flush, on a timeout or a cancelled context

  /** A message on commitCh: the records lo..hi-1 of a partition, or a flush barrier. */
  datatype Task = Commit(p: int, lo: nat, hi: nat) | Barrier

  /**
   * A partition: whether it is held, the next offset the client will fetch, the broker's committed
   * offset, whether no commit was outstanding when it was last assigned, and (when not held) whether
   * it was given up after a completed flush.
   */
  datatype Part = Part(held: bool, fetch: nat, committed: nat, clean: bool, flushed: bool)

  /** Where a partition worker is: top of the record loop, before the handler, in enqueueCommit, or finished. */
  datatype WorkerPc = Loop | Handle | Enter(flush: bool) | Put(flush: bool) | Finished

  /** Records lo..hi-1 of this poll; those before cur are handled, buf..cur-1 are not yet enqueued. */
  datatype Worker = Worker(pc: WorkerPc, lo: nat, hi: nat, cur: nat, buf: nat)

  datatype MainPc =
    | Top | Polling | Processing | Allowing
    | RevokeSend(ps: set<int>) | RevokeWait(ps: set<int>, barrier: nat)
    | Draining | ClosingCh | Waiting | Exited(drained: bool)

  datatype CommitPc = Ready | Trying(attempt: nat) | Backoff(attempt: nat) | Stopped

  /**
   * log holds every message ever sent on commitCh: log[taken..] is the channel's content, and while
   * the commit worker is busy its message is log[taken - 1]. attempts counts commits tried per message,
   * done the barriers closed, handled the records whose handler has run.
   */
  datatype State = State(
    main: MainPc, cancelled: bool, closing: bool, closed: bool, panicked: bool,
    parts: map<int, Part>, handled: set<(int, nat)>, workers: map<int, Worker>,
    log: seq<Task>, taken: nat, attempts: seq<nat>, cpc: CommitPc, done: set<nat>)

  datatype Action =
    | Cancel
    | CheckCtx | PollFatal | PollError(lost: map<int, nat>) | PollEmpty | PollRecords(counts: map<int, nat>)
    | WorkerTop(p: int) | RunHandler(p: int) | EnterEnqueue(p: int) | Enqueue(p: int) | DropEnqueue(p: int)
    | WaitAll | AllowDone | Assign(p: int, start: nat)
    | RevokeStart(ps: set<int>) | SendBarrier | GiveUpBarrier | BarrierDone | BarrierTimeout
    | DrainStart | CloseChannel | DrainComplete | DrainTimeout
    | Take | Stop | Attempt(applied: bool, reported: bool) | RetryNow | AbandonRetry

  // ---- transitions ------------------------------------------------------------------------------------

  predicate Busy(s: State) { s.cpc.Trying? || s.cpc.Backoff? }

  /** Messages whose processing has returned. */
  function Returned(s: State): nat { if Busy(s) && s.taken > 0 then s.taken - 1 else s.taken }

  /** No commit of p is in the channel or being tried. */
  ghost predicate NothingPending(s: State, p: int) {
    forall i :: Returned(s) <= i < |s.log| && s.log[i].Commit? ==> s.log[i].p != p
  }

  predicate Room(c: Config, s: State) { s.taken <= |s.log| < s.taken + c.cap }

  /** Sending on a closed channel panics. */
  function Send(s: State, t: Task): State {
    if s.closed then s.(panicked := true) else s.(log := s.log + [t], attempts := s.attempts + [0])
  }

  function Advance(parts: map<int, Part>, delta: map<int, nat>): map<int, Part> {
    map p | p in parts :: if p in delta then parts[p].(fetch := parts[p].fetch + delta[p]) else parts[p]
  }

  function Spawn(parts: map<int, Part>, counts: map<int, nat>): map<int, Worker>
    requires counts.Keys <= parts.Keys
  {
    map p | p in counts :: Worker(Loop, parts[p].fetch, parts[p].fetch + counts[p], parts[p].fetch, parts[p].fetch)
  }

  function Release(parts: map<int, Part>, ps: set<int>, flushed: bool): map<int, Part> {
    map p | p in parts :: if p in ps then parts[p].(held := false, flushed := flushed) else parts[p]
  }

  function WithWorker(s: State, p: int, w: Worker): State { s.(workers := s.workers[p := w]) }

  /** After enqueueCommit returns, whatever it did: the buffer is emptied and the loop goes on, or ends. */
  function AfterEnqueue(w: Worker): Worker
    requires w.pc.Enter? || w.pc.Put?
  {
    w.(buf := w.cur, pc := if w.pc.flush then Finished else Loop)
  }

  ghost function DoWorker(c: Config, s: State, a: Action): Option<State>
    requires a.WorkerTop? || a.RunHandler? || a.EnterEnqueue? || a.Enqueue? || a.DropEnqueue?
  {
    if a.p !in s.workers then None else
    var p, w := a.p, s.workers[a.p];
    match a
    case WorkerTop(_) =>
      if w.pc != Loop then None
      else if w.cur < w.hi && !s.cancelled then Some(WithWorker(s, p, w.(pc := Handle)))
      else Some(WithWorker(s, p, w.(pc := if w.buf < w.cur then Enter(true) else Finished)))
    case RunHandler(_) =>
      if w.pc != Handle then None
      else
        var full := w.cur + 1 - w.buf >= c.batch || w.cur + 1 == w.hi;
        Some(WithWorker(s, p, w.(cur := w.cur + 1, pc := if full then Enter(false) else Loop))
             .(handled := s.handled + {(p, w.cur)}))
    case EnterEnqueue(_) =>
      if !w.pc.Enter? then None
      else if s.closing then Some(WithWorker(s, p, AfterEnqueue(w)))
      else Some(WithWorker(s, p, w.(pc := Put(w.pc.flush))))
    case Enqueue(_) =>
      if !w.pc.Put? || !(s.closed || Room(c, s)) then None
      else Some(Send(WithWorker(s, p, AfterEnqueue(w)), Commit(p, w.buf, w.cur)))
    case DropEnqueue(_) =>
      if !w.pc.Put? || !(w.pc.flush || s.cancelled) then None
      else Some(WithWorker(s, p, AfterEnqueue(w)))
  }

  ghost function DoCommit(c: Config, s: State, a: Action): Option<State>
    requires a.Take? || a.Stop? || a.Attempt? || a.RetryNow? || a.AbandonRetry?
  {
    match a
    case Take =>
      if s.cpc != Ready || s.taken >= |s.log| then None
      else if s.log[s.taken].Barrier? then Some(s.(taken := s.taken + 1, done := s.done + {s.taken}))
      else Some(s.(taken := s.taken + 1, cpc := Trying(0)))
    case Stop =>
      if s.cpc == Ready && s.taken == |s.log| && s.closed then Some(s.(cpc := Stopped)) else None
    case Attempt(applied, reported) =>
      if !s.cpc.Trying? || (reported && !applied) || !(0 < s.taken <= |s.log| == |s.attempts|) then None
      else
        var t, i := s.log[s.taken - 1], s.taken - 1;
        if !t.Commit? || t.p !in s.parts then None
        else
          var parts := if applied then s.parts[t.p := s.parts[t.p].(committed := t.hi)] else s.parts;
          var next := if reported || s.cpc.attempt >= c.retries then Ready else Backoff(s.cpc.attempt);
          Some(s.(parts := parts, attempts := s.attempts[i := s.attempts[i] + 1], cpc := next))
    case RetryNow => if s.cpc.Backoff? then Some(s.(cpc := Trying(s.cpc.attempt + 1))) else None
    case AbandonRetry => if s.cpc.Backoff? && s.cancelled then Some(s.(cpc := Ready)) else None
  }

  ghost function DoMain(c: Config, s: State, a: Action): Option<State> {
    match a
    case Cancel => Some(s.(cancelled := true))
    case CheckCtx => if s.main == Top then Some(s.(main := if s.cancelled then Draining else Polling)) else None
    case PollFatal => if s.main == Polling && s.cancelled then Some(s.(main := Draining)) else None
    case PollError(lost) =>
      if s.main == Polling && (lost == map[] || (c.lossy && forall p :: p in lost ==> p in s.parts && s.parts[p].held))
      then Some(s.(main := Allowing, parts := Advance(s.parts, lost))) else None
    case PollEmpty => if s.main == Polling then Some(s.(main := Allowing)) else None
    case PollRecords(counts) =>
      if s.main == Polling && counts != map[]
         && (forall p :: p in counts ==> p in s.parts && s.parts[p].held && counts[p] > 0)
      then Some(s.(main := Processing, workers := Spawn(s.parts, counts), parts := Advance(s.parts, counts))) else None
    case WaitAll =>
      if s.main == Processing && (forall p :: p in s.workers ==> s.workers[p].pc == Finished)
      then Some(s.(main := Allowing, workers := map[])) else None
    case AllowDone => if s.main == Allowing then Some(s.(main := Top)) else None
    case Assign(p, start) =>
      if (s.main == Polling || s.main == Allowing) && p in s.parts && !s.parts[p].held then
        Some(s.(parts := s.parts[p := Part(true, start, start, NothingPending(s, p), false)],
                handled := s.handled + set o | 0 <= o < start :: (p, o)))
      else None
    case RevokeStart(ps) =>
      if s.main == Allowing && !s.closing then Some(s.(main := RevokeSend(ps))) else None
    case SendBarrier =>
      if s.main.RevokeSend? && (s.closed || Room(c, s))
      then Some(Send(s, Barrier).(main := RevokeWait(s.main.ps, |s.log|))) else None
    case GiveUpBarrier =>
      if s.main.RevokeSend? && c.hurried
      then Some(s.(main := Allowing, parts := Release(s.parts, s.main.ps, false))) else None
    case BarrierDone =>
      if s.main.RevokeWait? && s.main.barrier in s.done
      then Some(s.(main := Allowing, parts := Release(s.parts, s.main.ps, true))) else None
    case BarrierTimeout =>
      if s.main.RevokeWait? && c.hurried
      then Some(s.(main := Allowing, parts := Release(s.parts, s.main.ps, false))) else None
    case DrainStart =>
      if s.main == Draining && (forall p :: p in s.workers ==> s.workers[p].pc == Finished)
      then Some(s.(main := ClosingCh, closing := true)) else None
    case CloseChannel => if s.main == ClosingCh then Some(s.(main := Waiting, closed := true)) else None
    case DrainComplete => if s.main == Waiting && s.cpc == Stopped then Some(s.(main := Exited(true))) else None
    case DrainTimeout => if s.main == Waiting then Some(s.(main := Exited(false))) else None
    case _ => None
  }

  ghost function Do(c: Config, s: State, a: Action): Option<State> {
    if a.WorkerTop? || a.RunHandler? || a.EnterEnqueue? || a.Enqueue? || a.DropEnqueue? then DoWorker(c, s, a)
    else if a.Take? || a.Stop? || a.Attempt? || a.RetryNow? || a.AbandonRetry? then DoCommit(c, s, a)
    else DoMain(c, s, a)
  }

  /** At start no partition is held and nothing has been consumed. */
  function Init(partitions: set<int>): State {
    State(Top, false, false, false, false,
          map p | p in partitions :: Part(false, 0, 0, true, true), {}, map[],
          [], 0, [], Ready, {})
  }

  ghost predicate IsRun(c: Config, partitions: set<int>, states: seq<State>, actions: seq<Action>) {
    && |states| == |actions| + 1 && states[0] == Init(partitions)
    && forall i :: 0 <= i < |actions| ==> Do(c, states[i], actions[i]) == Some(states[i + 1])
  }

  // ---- at-least-once ------------------------------------------------------------------------------------

  /** Every record of p before offset k has been handled. */
  ghost predicate Covered(h: set<(int, nat)>, p: int, k: nat) { forall o: nat :: o < k ==> (p, o) in h }

  /** The committed offset never passes the first record whose handler has not run. */
  ghost predicate AtLeastOnce(s: State) {
    forall p :: p in s.parts ==> Covered(s.handled, p, s.parts[p].committed)
  }

  /** Coverage, where error polls cannot break it. */
  ghost predicate Safe(c: Config, h: set<(int, nat)>, p: int, k: nat) { c.lossy || Covered(h, p, k) }

  ghost predicate CommittedOk(c: Config, s: State) {
    forall p :: p in s.parts ==> Safe(c, s.handled, p, s.parts[p].committed)
  }

  ghost predicate TasksOk(c: Config, s: State) {
    forall i :: 0 <= i < |s.log| && s.log[i].Commit? ==>
      s.log[i].p in s.parts && s.log[i].lo < s.log[i].hi && Safe(c, s.handled, s.log[i].p, s.log[i].hi)
  }

  /** A worker's processed records are all covered; one started past a gap never runs a handler. */
  ghost predicate WorkerOk(c: Config, s: State, p: int, w: Worker) {
    && p in s.parts && s.parts[p].held
    && w.lo <= w.buf <= w.cur <= w.hi
    && (Safe(c, s.handled, p, w.cur) || (s.cancelled && w.buf == w.cur && (w.pc == Loop || w.pc == Finished)))
    && (w.pc == Handle ==> w.cur < w.hi)
    && ((w.pc.Enter? || w.pc.Put?) ==> w.buf < w.cur && (w.pc.flush ==> s.cancelled))
    && (w.pc == Loop && w.cur == w.hi ==> w.buf == w.cur)
    && (w.pc == Finished ==> w.buf == w.cur && (w.cur == w.hi || s.cancelled))
  }

  ghost predicate WorkersOk(c: Config, s: State) {
    && (forall p :: p in s.workers ==> WorkerOk(c, s, p, s.workers[p]))
    && (s.workers != map[] ==> s.main == Processing)
  }

  /** A held partition without a worker is covered up to its fetch position, unless the consumer is cancelled. */
  ghost predicate FetchOk(c: Config, s: State) {
    forall p :: p in s.parts && s.parts[p].held ==>
      if p in s.workers then s.parts[p].fetch == s.workers[p].hi
      else s.cancelled || Safe(c, s.handled, p, s.parts[p].fetch)
  }

  // ---- the channel and the commit worker ------------------------------------------------------------------

  ghost predicate MainOk(s: State) {
    && !s.panicked
    && (s.closing <==> s.main.ClosingCh? || s.main.Waiting? || s.main.Exited?)
    && (s.closed <==> s.main.Waiting? || s.main.Exited?)
    && (s.main.RevokeWait? ==> s.main.barrier + 1 == |s.log|)
    && (s.main == Exited(true) ==> s.cpc == Stopped)
  }

  ghost predicate CommitOk(c: Config, s: State) {
    && s.taken <= |s.log| == |s.attempts|
    && |s.log| <= s.taken + c.cap
    && (Busy(s) ==> s.taken > 0 && s.log[s.taken - 1].Commit?)
    && (s.cpc.Backoff? ==> s.attempts[s.taken - 1] > 0)
    && (s.cpc.Trying? && s.cpc.attempt > 0 ==> s.attempts[s.taken - 1] > 0)
    && (s.cpc.Backoff? ==> s.cpc.attempt < c.retries)
    && (s.cpc.Trying? ==> s.cpc.attempt <= c.retries)
    && (s.cpc == Stopped ==> s.closed && s.taken == |s.log|)
    && (forall i :: 0 <= i < Returned(s) && s.log[i].Commit? ==> s.attempts[i] > 0)
    && (forall i :: i in s.done ==> i < s.taken && s.log[i].Barrier?)
  }

  // ---- monotone commits -----------------------------------------------------------------------------------

  /** The pending commits of p are in order, at or above the committed offset, and below what comes next. */
  ghost predicate Ordered(s: State, p: int, bound: nat)
    requires p in s.parts
  {
    && s.parts[p].committed <= bound
    && (forall i :: Returned(s) <= i < |s.log| && s.log[i].Commit? && s.log[i].p == p ==>
          s.parts[p].committed <= s.log[i].hi <= bound)
    && (forall i, j :: Returned(s) <= i < j < |s.log| && s.log[i].Commit? && s.log[j].Commit?
                       && s.log[i].p == p == s.log[j].p ==>
          s.log[i].hi <= s.log[j].hi)
  }

  ghost predicate MonoOk(s: State) {
    forall p :: p in s.parts ==>
      && (s.parts[p].held && s.parts[p].clean ==>
            Ordered(s, p, if p in s.workers then s.workers[p].buf else s.parts[p].fetch))
      && (!s.parts[p].held && s.parts[p].flushed ==> NothingPending(s, p))
  }

  ghost predicate Inv(c: Config, s: State) {
    CommittedOk(c, s) && TasksOk(c, s) && WorkersOk(c, s) && FetchOk(c, s) && MainOk(s) && CommitOk(c, s) && MonoOk(s)
  }

  lemma InitInv(c: Config, partitions: set<int>)
    ensures Inv(c, Init(partitions))
  {
  }

  // ---- every action keeps the invariant -------------------------------------------------------------------

  lemma CancelInv(c: Config, s: State)
    requires Inv(c, s)
    ensures Inv(c, s.(cancelled := true))
  {
  }

  /** Moves of the poll loop that touch nothing else. */
  lemma MainMoveInv(c: Config, s: State, main: MainPc)
    requires Inv(c, s) && s.workers == map[]
    requires s.main in {Top, Polling, Allowing, Draining} || s.main.RevokeSend?
    requires main in {Top, Polling, Allowing, Draining} || main.RevokeSend?
    ensures Inv(c, s.(main := main))
  {
  }

  lemma NoWorkers(c: Config, s: State)
    requires Inv(c, s) && s.main != Processing
    ensures s.workers == map[]
  {
  }

  lemma PollErrorInv(c: Config, s: State, lost: map<int, nat>)
    requires Inv(c, s) && DoMain(c, s, PollError(lost)).Some?
    ensures Inv(c, DoMain(c, s, PollError(lost)).value)
  {
    NoWorkers(c, s);
    if lost == map[] {
      assert Advance(s.parts, lost) == s.parts;
      MainMoveInv(c, s, Allowing);
    } else {
      var s' := DoMain(c, s, PollError(lost)).value;
      forall p | p in s'.parts && s'.parts[p].held && s'.parts[p].clean ensures Ordered(s', p, s'.parts[p].fetch) {
        assert Ordered(s, p, s.parts[p].fetch);
      }
    }
  }

  lemma PollRecordsInv(c: Config, s: State, counts: map<int, nat>)
    requires Inv(c, s) && DoMain(c, s, PollRecords(counts)).Some?
    ensures Inv(c, DoMain(c, s, PollRecords(counts)).value)
  {
    hide Safe;
    NoWorkers(c, s);
    var s' := DoMain(c, s, PollRecords(counts)).value;
    assert MonoOk(s') by {
      forall p | p in s'.parts && s'.parts[p].held && s'.parts[p].clean
        ensures Ordered(s', p, if p in s'.workers then s'.workers[p].buf else s'.parts[p].fetch)
      {
        assert Ordered(s, p, s.parts[p].fetch);
      }
    }
  }

  lemma WaitAllInv(c: Config, s: State)
    requires Inv(c, s) && DoMain(c, s, WaitAll).Some?
    ensures Inv(c, DoMain(c, s, WaitAll).value)
  {
    hide Safe;
    var s' := DoMain(c, s, WaitAll).value;
    forall p | p in s.parts && s.parts[p].held
      ensures s'.cancelled || Safe(c, s'.handled, p, s'.parts[p].fetch)
      ensures s.parts[p].clean ==> Ordered(s', p, s'.parts[p].fetch)
    {
      if p in s.workers {
        assert WorkerOk(c, s, p, s.workers[p]);
        assert s.parts[p].clean ==> Ordered(s, p, s.workers[p].buf);
      }
    }
  }

  lemma AssignInv(c: Config, s: State, p: int, start: nat)
    requires Inv(c, s) && DoMain(c, s, Assign(p, start)).Some?
    ensures Inv(c, DoMain(c, s, Assign(p, start)).value)
  {
    NoWorkers(c, s);
    var s' := DoMain(c, s, Assign(p, start)).value;
    assert Safe(c, s'.handled, p, start);
    assert s.handled <= s'.handled;
    assert MonoOk(s') by {
      forall q | q in s'.parts && s'.parts[q].held && s'.parts[q].clean ensures Ordered(s', q, s'.parts[q].fetch) {
        if q != p { assert Ordered(s, q, s.parts[q].fetch); }
      }
    }
  }

  lemma ReleaseInv(c: Config, s: State, ps: set<int>, flushed: bool)
    requires Inv(c, s) && s.workers == map[] && (s.main.RevokeSend? || s.main.RevokeWait?)
    requires flushed ==> forall p :: p in ps ==> NothingPending(s, p)
    ensures Inv(c, s.(main := Allowing, parts := Release(s.parts, ps, flushed)))
  {
    hide Safe;
    var s' := s.(main := Allowing, parts := Release(s.parts, ps, flushed));
    assert MonoOk(s') by {
      forall p | p in s'.parts && s'.parts[p].held && s'.parts[p].clean ensures Ordered(s', p, s'.parts[p].fetch) {
        assert Ordered(s, p, s.parts[p].fetch);
      }
      forall p | p in s'.parts && !s'.parts[p].held && s'.parts[p].flushed ensures NothingPending(s', p) {
        assert NothingPending(s, p);
      }
    }
  }

  /** When the revoke barrier is reached, everything sent before it has returned and nothing was sent after it. */
  lemma BarrierReached(c: Config, s: State)
    requires Inv(c, s) && s.main.RevokeWait? && s.main.barrier in s.done
    ensures Returned(s) == |s.log|
    ensures forall i :: 0 <= i < |s.log| && s.log[i].Commit? ==> s.attempts[i] > 0
  {
  }

  lemma SendInv(c: Config, s: State, s1: State, t: Task)
    requires Inv(c, s) && !s.closed && Room(c, s)
    requires s1 == Send(s, t) && (t.Commit? ==> t.p in s.parts && t.lo < t.hi && Safe(c, s.handled, t.p, t.hi))
    ensures TasksOk(c, s1) && CommitOk(c, s1) && CommittedOk(c, s1)
  {
    hide Safe;
  }

  lemma SendBarrierInv(c: Config, s: State)
    requires Inv(c, s) && DoMain(c, s, SendBarrier).Some?
    ensures Inv(c, DoMain(c, s, SendBarrier).value)
  {
    hide Safe;
    NoWorkers(c, s);
    var s' := DoMain(c, s, SendBarrier).value;
    SendInv(c, s, Send(s, Barrier), Barrier);
    assert MonoOk(s') by {
      forall p | p in s'.parts && s'.parts[p].held && s'.parts[p].clean ensures Ordered(s', p, s'.parts[p].fetch) {
        assert Ordered(s, p, s.parts[p].fetch);
      }
      forall p | p in s'.parts && !s'.parts[p].held && s'.parts[p].flushed ensures NothingPending(s', p) {
        assert NothingPending(s, p);
      }
    }
  }

  // workers

  /** Changing one worker, with the rest of the state at most gaining handled records. */
  lemma WorkerMoveInv(c: Config, s: State, p: int, w: Worker, h: set<(int, nat)>)
    requires Inv(c, s) && p in s.workers && s.handled <= h
    requires w.hi == s.workers[p].hi && w.buf >= s.workers[p].buf
    requires WorkerOk(c, WithWorker(s, p, w).(handled := h), p, w)
    ensures Inv(c, WithWorker(s, p, w).(handled := h))
  {
    var s' := WithWorker(s, p, w).(handled := h);
    assert WorkersOk(c, s') by {
      forall q | q in s'.workers ensures WorkerOk(c, s', q, s'.workers[q]) {
        if q != p { assert WorkerOk(c, s, q, s.workers[q]); }
      }
    }
    assert MonoOk(s') by {
      hide Safe;
      forall q | q in s'.parts && s'.parts[q].held && s'.parts[q].clean
        ensures Ordered(s', q, if q in s'.workers then s'.workers[q].buf else s'.parts[q].fetch)
      {
        assert Ordered(s, q, if q in s.workers then s.workers[q].buf else s.parts[q].fetch);
      }
      forall q | q in s'.parts && !s'.parts[q].held && s'.parts[q].flushed ensures NothingPending(s', q) {
        assert NothingPending(s, q);
      }
    }
  }

  lemma WorkerInv(c: Config, s: State, a: Action)
    requires Inv(c, s) && (a.WorkerTop? || a.RunHandler? || a.EnterEnqueue? || a.DropEnqueue?) && c.batch > 0
    requires DoWorker(c, s, a).Some?
    ensures Inv(c, DoWorker(c, s, a).value)
  {
    var s' := DoWorker(c, s, a).value;
    var w, w' := s.workers[a.p], s'.workers[a.p];
    assert WorkerOk(c, s, a.p, w);
    assert s' == WithWorker(s, a.p, w').(handled := s'.handled);
    assert WorkerOk(c, s', a.p, w');
    WorkerMoveInv(c, s, a.p, w', s'.handled);
  }

  lemma EnqueueInv(c: Config, s: State, p: int)
    requires Inv(c, s) && DoWorker(c, s, Enqueue(p)).Some?
    ensures Inv(c, DoWorker(c, s, Enqueue(p)).value)
  {
    var s' := DoWorker(c, s, Enqueue(p)).value;
    var w := s.workers[p];
    assert WorkerOk(c, s, p, w);
    var t := Commit(p, w.buf, w.cur);
    SendInv(c, s, Send(s, t), t);
    assert WorkersOk(c, s') by {
      forall q | q in s'.workers ensures WorkerOk(c, s', q, s'.workers[q]) {
        assert WorkerOk(c, s, q, s.workers[q]);
      }
    }
    EnqueueMono(c, s, p);
  }

  lemma EnqueueMono(c: Config, s: State, p: int)
    requires Inv(c, s) && DoWorker(c, s, Enqueue(p)).Some? && !s.closed
    ensures MonoOk(DoWorker(c, s, Enqueue(p)).value)
  {
    hide Safe;
    var s' := DoWorker(c, s, Enqueue(p)).value;
    assert WorkerOk(c, s, p, s.workers[p]);
    forall q | q in s'.parts && s'.parts[q].held && s'.parts[q].clean
      ensures Ordered(s', q, if q in s'.workers then s'.workers[q].buf else s'.parts[q].fetch)
    {
      assert Ordered(s, q, if q in s.workers then s.workers[q].buf else s.parts[q].fetch);
    }
    forall q | q in s'.parts && !s'.parts[q].held && s'.parts[q].flushed ensures NothingPending(s', q) {
      assert NothingPending(s, q);
    }
  }

  // the commit worker

  lemma TakeInv(c: Config, s: State)
    requires Inv(c, s) && DoCommit(c, s, Take).Some?
    ensures Inv(c, DoCommit(c, s, Take).value)
  {
    hide Safe;
    var s' := DoCommit(c, s, Take).value;
    SameParts(s, s');
  }

  /** Returning from a message only shortens what is pending. */
  lemma SameParts(s: State, s': State)
    requires MonoOk(s) && s'.parts == s.parts && s'.workers == s.workers && s'.log == s.log
    requires Returned(s) <= Returned(s')
    ensures MonoOk(s')
  {
    forall p | p in s'.parts && s'.parts[p].held && s'.parts[p].clean
      ensures Ordered(s', p, if p in s'.workers then s'.workers[p].buf else s'.parts[p].fetch)
    {
      assert Ordered(s, p, if p in s.workers then s.workers[p].buf else s.parts[p].fetch);
    }
    forall p | p in s'.parts && !s'.parts[p].held && s'.parts[p].flushed ensures NothingPending(s', p) {
      assert NothingPending(s, p);
    }
  }

  lemma QuietCommitInv(c: Config, s: State, a: Action)
    requires Inv(c, s) && (a.Stop? || a.RetryNow? || a.AbandonRetry?) && DoCommit(c, s, a).Some?
    ensures Inv(c, DoCommit(c, s, a).value)
  {
    hide Safe;
    SameParts(s, DoCommit(c, s, a).value);
  }

  lemma AttemptInv(c: Config, s: State, applied: bool, reported: bool)
    requires Inv(c, s) && DoCommit(c, s, Attempt(applied, reported)).Some?
    ensures Inv(c, DoCommit(c, s, Attempt(applied, reported)).value)
  {
    var s' := DoCommit(c, s, Attempt(applied, reported)).value;
    var t := s.log[s.taken - 1];
    assert t.Commit? && Safe(c, s.handled, t.p, t.hi);
    hide Safe;
    assert WorkersOk(c, s') by {
      forall q | q in s'.workers ensures WorkerOk(c, s', q, s'.workers[q]) { assert WorkerOk(c, s, q, s.workers[q]); }
    }
    AttemptMono(c, s, applied, reported);
  }

  lemma AttemptMono(c: Config, s: State, applied: bool, reported: bool)
    requires Inv(c, s) && DoCommit(c, s, Attempt(applied, reported)).Some?
    ensures MonoOk(DoCommit(c, s, Attempt(applied, reported)).value)
  {
    hide Safe;
    var s' := DoCommit(c, s, Attempt(applied, reported)).value;
    forall p | p in s'.parts && s'.parts[p].held && s'.parts[p].clean
      ensures Ordered(s', p, if p in s'.workers then s'.workers[p].buf else s'.parts[p].fetch)
    {
      assert Ordered(s, p, if p in s.workers then s.workers[p].buf else s.parts[p].fetch);
    }
    forall p | p in s'.parts && !s'.parts[p].held && s'.parts[p].flushed ensures NothingPending(s', p) {
      assert NothingPending(s, p);
    }
  }

  // shutdown

  lemma ShutdownInv(c: Config, s: State, a: Action)
    requires Inv(c, s) && (a.DrainStart? || a.CloseChannel? || a.DrainComplete? || a.DrainTimeout?)
    requires DoMain(c, s, a).Some?
    ensures Inv(c, DoMain(c, s, a).value)
  {
    hide Safe, MonoOk, Ordered, NothingPending;
    NoWorkers(c, s);
    var s' := DoMain(c, s, a).value;
    SameParts(s, s');
    assert FetchOk(c, s') && TasksOk(c, s') && CommittedOk(c, s');
  }

  /** Every action keeps the invariant. */
  lemma DoInv(c: Config, s: State, a: Action)
    requires Inv(c, s) && Do(c, s, a).Some? && c.batch > 0
    ensures Inv(c, Do(c, s, a).value)
  {
    hide Inv, DoWorker, DoCommit;
    match a
    case Cancel => CancelInv(c, s);
    case CheckCtx => NoWorkers(c, s); MainMoveInv(c, s, if s.cancelled then Draining else Polling);
    case PollFatal => NoWorkers(c, s); MainMoveInv(c, s, Draining);
    case PollError(lost) => PollErrorInv(c, s, lost);
    case PollEmpty => NoWorkers(c, s); MainMoveInv(c, s, Allowing);
    case PollRecords(counts) => PollRecordsInv(c, s, counts);
    case WaitAll => WaitAllInv(c, s);
    case AllowDone => NoWorkers(c, s); MainMoveInv(c, s, Top);
    case Assign(p, start) => AssignInv(c, s, p, start);
    case RevokeStart(ps) => NoWorkers(c, s); MainMoveInv(c, s, RevokeSend(ps));
    case SendBarrier => SendBarrierInv(c, s);
    case GiveUpBarrier => NoWorkers(c, s); ReleaseInv(c, s, s.main.ps, false);
    case BarrierDone =>
      NoWorkers(c, s);
      BarrierReached(c, s);
      ReleaseInv(c, s, s.main.ps, true);
    case BarrierTimeout => NoWorkers(c, s); ReleaseInv(c, s, s.main.ps, false);
    case DrainStart => ShutdownInv(c, s, a);
    case CloseChannel => ShutdownInv(c, s, a);
    case DrainComplete => ShutdownInv(c, s, a);
    case DrainTimeout => ShutdownInv(c, s, a);
    case Enqueue(p) => EnqueueInv(c, s, p);
    case Take => TakeInv(c, s);
    case Attempt(applied, reported) => AttemptInv(c, s, applied, reported);
    case Stop => QuietCommitInv(c, s, a);
    case RetryNow => QuietCommitInv(c, s, a);
    case AbandonRetry => QuietCommitInv(c, s, a);
    case _ => WorkerInv(c, s, a);
  }

  // ---- every reachable state ------------------------------------------------------------------------------

  lemma {:induction false} RunInv(c: Config, partitions: set<int>, states: seq<State>, actions: seq<Action>, i: nat)
    requires c.batch > 0 && IsRun(c, partitions, states, actions) && i <= |actions|
    ensures Inv(c, states[i])
  {
    hide Inv, Do;
    if i == 0 {
      InitInv(c, partitions);
    } else {
      RunInv(c, partitions, states, actions, i - 1);
      assert Do(c, states[i - 1], actions[i - 1]) == Some(states[i - 1 + 1]);
      DoInv(c, states[i - 1], actions[i - 1]);
    }
  }

  /**
   * Revoke barrier and shutdown drain: when the barrier is reached, and when the drain completes, every
   * message sent before has returned after at least one commit attempt.
   */
  lemma FlushesAreComplete(c: Config, partitions: set<int>, states: seq<State>, actions: seq<Action>, i: nat)
    requires c.batch > 0 && IsRun(c, partitions, states, actions) && i <= |actions|
    ensures var s := states[i];
            (s.main.RevokeWait? && s.main.barrier in s.done) || s.main == Exited(true) ==>
              && Returned(s) == |s.log| == |s.attempts|
              && forall k :: 0 <= k < |s.log| && s.log[k].Commit? ==> s.attempts[k] > 0
  {
    RunInv(c, partitions, states, actions, i);
  }

  /** Barriers in general: once one is closed, every message before it has returned, tried at least once. */
  lemma BarrierOrder(c: Config, s: State, b: nat)
    requires Inv(c, s) && b in s.done
    ensures b < Returned(s) + 1 && s.taken <= |s.log| == |s.attempts|
    ensures forall k :: 0 <= k < b && s.log[k].Commit? ==> k < Returned(s) && s.attempts[k] > 0
  {
  }

  /** Nothing is ever sent on the channel after it is closed. */
  lemma NoSendAfterClose(c: Config, partitions: set<int>, states: seq<State>, actions: seq<Action>, i: nat)
    requires c.batch > 0 && IsRun(c, partitions, states, actions) && i < |actions|
    ensures !states[i + 1].panicked && (states[i].closed ==> states[i + 1].log == states[i].log)
  {
    RunInv(c, partitions, states, actions, i);
    RunInv(c, partitions, states, actions, i + 1);
    assert Do(c, states[i], actions[i]) == Some(states[i + 1]);
    if states[i].closed { ClosedIsQuiet(c, states[i], actions[i]); }
  }

  lemma ClosedIsQuiet(c: Config, s: State, a: Action)
    requires Inv(c, s) && Do(c, s, a).Some? && s.closed
    ensures Do(c, s, a).value.log == s.log
  {
    hide Safe, Ordered;
    NoWorkers(c, s);
  }

  lemma WorkersDoNotCommit(c: Config, s: State, a: Action)
    requires a.WorkerTop? || a.RunHandler? || a.EnterEnqueue? || a.Enqueue? || a.DropEnqueue?
    requires DoWorker(c, s, a).Some?
    ensures DoWorker(c, s, a).value.parts == s.parts
  {
  }

  /** Partitions change only when polled, assigned or released. */
  predicate MovesParts(a: Action) {
    a.PollError? || a.PollRecords? || a.Assign? || a.GiveUpBarrier? || a.BarrierDone? || a.BarrierTimeout?
  }

  lemma PartsStay(c: Config, s: State, a: Action)
    requires DoMain(c, s, a).Some? && !MovesParts(a)
    ensures DoMain(c, s, a).value.parts == s.parts
  {
    hide NothingPending, Room, Advance, Spawn, Release;
  }

  lemma MainDoesNotCommit(c: Config, s: State, a: Action, p: int)
    requires DoMain(c, s, a).Some? && p in s.parts && s.parts[p].held
    ensures var s' := DoMain(c, s, a).value;
            && p in s'.parts && s'.parts[p].committed == s.parts[p].committed
            && s'.parts[p].clean == s.parts[p].clean
  {
    hide NothingPending, Room, Spawn, Send;
    if !MovesParts(a) { PartsStay(c, s, a); }
  }

  /** Only a commit attempt or a new assignment changes a committed offset. */
  lemma OthersDoNotCommit(c: Config, s: State, a: Action, p: int)
    requires Do(c, s, a).Some? && !a.Attempt? && p in s.parts && s.parts[p].held
    ensures var s' := Do(c, s, a).value;
            && p in s'.parts && s'.parts[p].committed == s.parts[p].committed
            && s'.parts[p].clean == s.parts[p].clean
  {
    hide DoWorker, DoMain;
    if a.WorkerTop? || a.RunHandler? || a.EnterEnqueue? || a.Enqueue? || a.DropEnqueue? {
      WorkersDoNotCommit(c, s, a);
    } else if !(a.Take? || a.Stop? || a.RetryNow? || a.AbandonRetry?) {
      MainDoesNotCommit(c, s, a, p);
    }
  }

  /** A step never moves back the committed offset of a partition assigned with no commit outstanding. */
  lemma CommitsAreMonotone(c: Config, s: State, a: Action, p: int)
    requires Inv(c, s) && Do(c, s, a).Some?
    requires p in s.parts && s.parts[p].held && s.parts[p].clean
    ensures var s' := Do(c, s, a).value;
            p in s'.parts && s.parts[p].committed <= s'.parts[p].committed && s'.parts[p].clean
  {
    hide Safe, DoWorker, DoMain, WorkersOk, FetchOk;
    if a.Attempt? {
      assert Ordered(s, p, if p in s.workers then s.workers[p].buf else s.parts[p].fetch);
    } else {
      OthersDoNotCommit(c, s, a, p);
    }
  }

  /** While a partition assigned with no commit outstanding stays held, its committed offset never goes back. */
  lemma {:induction false} MonotoneWhileHeld(c: Config, partitions: set<int>, states: seq<State>,
                                             actions: seq<Action>, i: nat, j: nat, p: int)
    requires c.batch > 0 && IsRun(c, partitions, states, actions) && i <= j <= |actions|
    requires forall k :: i <= k <= j ==> p in states[k].parts && states[k].parts[p].held
    requires states[i].parts[p].clean
    ensures states[j].parts[p].clean && states[i].parts[p].committed <= states[j].parts[p].committed
    decreases j
  {
    hide Inv, Do;
    if i < j {
      MonotoneWhileHeld(c, partitions, states, actions, i, j - 1, p);
      RunInv(c, partitions, states, actions, j - 1);
      assert Do(c, states[j - 1], actions[j - 1]) == Some(states[j - 1 + 1]);
      CommitsAreMonotone(c, states[j - 1], actions[j - 1], p);
    }
  }

  /** A partition given up after a completed flush is assigned again with no commit outstanding. */
  lemma FlushedMeansClean(c: Config, s: State, p: int, start: nat)
    requires Inv(c, s) && Do(c, s, Assign(p, start)).Some? && s.parts[p].flushed
    ensures Do(c, s, Assign(p, start)).value.parts[p].clean
  {
  }

  /** Every held partition was assigned with no commit outstanding; every other was given up flushed. */
  ghost predicate AllClean(s: State) {
    forall p :: p in s.parts ==> if s.parts[p].held then s.parts[p].clean else s.parts[p].flushed
  }

  lemma ReleaseClean(s: State, ps: set<int>, main: MainPc)
    requires AllClean(s)
    ensures AllClean(s.(main := main, parts := Release(s.parts, ps, true)))
  {
  }

  lemma AdvanceClean(s: State, s': State, delta: map<int, nat>)
    requires AllClean(s) && s'.parts == Advance(s.parts, delta)
    ensures AllClean(s')
  {
  }

  lemma AttemptClean(c: Config, s: State, a: Action)
    requires AllClean(s) && a.Attempt? && DoCommit(c, s, a).Some?
    ensures AllClean(DoCommit(c, s, a).value)
  {
  }

  lemma AssignClean(c: Config, s: State, p: int, start: nat)
    requires Inv(c, s) && AllClean(s) && DoMain(c, s, Assign(p, start)).Some?
    ensures AllClean(DoMain(c, s, Assign(p, start)).value)
  {
    hide Safe, Ordered;
    FlushedMeansClean(c, s, p, start);
  }

  /** Where revokes wait for their flush, no step leaves a commit outstanding across an assignment. */
  lemma StaysClean(c: Config, s: State, a: Action)
    requires Inv(c, s) && AllClean(s) && !c.hurried && Do(c, s, a).Some?
    ensures AllClean(Do(c, s, a).value)
  {
    hide Inv, DoWorker, Advance, Spawn, Release, Send, NothingPending;
    if a.WorkerTop? || a.RunHandler? || a.EnterEnqueue? || a.Enqueue? || a.DropEnqueue? {
      WorkersDoNotCommit(c, s, a);
    } else if a.Attempt? {
      AttemptClean(c, s, a);
    } else if a.Take? || a.Stop? || a.RetryNow? || a.AbandonRetry? {
    } else if a.Assign? {
      AssignClean(c, s, a.p, a.start);
    } else if a.BarrierDone? {
      ReleaseClean(s, s.main.ps, Allowing);
    } else if a.PollError? {
      AdvanceClean(s, Do(c, s, a).value, a.lost);
    } else if a.PollRecords? {
      AdvanceClean(s, Do(c, s, a).value, a.counts);
    } else {
      PartsStay(c, s, a);
    }
  }

  lemma {:induction false} RunClean(c: Config, partitions: set<int>, states: seq<State>, actions: seq<Action>, i: nat)
    requires c.batch > 0 && !c.hurried && IsRun(c, partitions, states, actions) && i <= |actions|
    ensures AllClean(states[i])
  {
    hide Inv, Do;
    if i > 0 {
      RunClean(c, partitions, states, actions, i - 1);
      RunInv(c, partitions, states, actions, i - 1);
      assert Do(c, states[i - 1], actions[i - 1]) == Some(states[i - 1 + 1]);
      StaysClean(c, states[i - 1], actions[i - 1]);
    }
  }

  // ---- runs that show the hypotheses are needed -----------------------------------------------------------

  lemma Extend(c: Config, partitions: set<int>, states: seq<State>, actions: seq<Action>, a: Action, s': State)
    requires IsRun(c, partitions, states, actions) && Do(c, states[|actions|], a) == Some(s')
    ensures IsRun(c, partitions, states + [s'], actions + [a])
  {
    hide Do;
    var states', actions' := states + [s'], actions + [a];
    forall i | 0 <= i < |actions'| ensures Do(c, states'[i], actions'[i]) == Some(states'[i + 1]) {
      if i < |actions| { assert Do(c, states[i], actions[i]) == Some(states[i + 1]); }
    }
  }

  /** A run, given as its action list and last state. */
  ghost predicate Reaches(c: Config, partitions: set<int>, s: State) {
    exists states, actions :: IsRun(c, partitions, states, actions) && states[|actions|] == s
  }

  lemma ReachesInit(c: Config, partitions: set<int>)
    ensures Reaches(c, partitions, Init(partitions))
  {
    var states: seq<State>, actions: seq<Action> := [Init(partitions)], [];
    assert IsRun(c, partitions, states, actions) && states[|actions|] == Init(partitions);
  }

  lemma ReachesStep(c: Config, partitions: set<int>, s: State, a: Action, s': State)
    requires Reaches(c, partitions, s) && Do(c, s, a) == Some(s')
    ensures Reaches(c, partitions, s')
  {
    hide Do;
    var states, actions :| IsRun(c, partitions, states, actions) && states[|actions|] == s;
    Extend(c, partitions, states, actions, a, s');
    assert (states + [s'])[|actions + [a]|] == s';
  }

  /** From a poll that returned one record of p: handle it, enqueue it, and let the commit worker take it. */
  lemma OneRecord(c: Config, partitions: set<int>, s: State, p: int) returns (s': State)
    requires Reaches(c, partitions, s) && c.batch > 0 && c.cap > 0
    requires s.main == Polling && !s.cancelled && !s.closing && !s.closed
    requires p in s.parts && s.parts[p].held && s.log == [] && s.taken == 0 && s.attempts == [] && s.cpc == Ready
    ensures Reaches(c, partitions, s')
    ensures var o := s.parts[p].fetch;
            s' == s.(main := Processing, parts := s.parts[p := s.parts[p].(fetch := o + 1)],
                     workers := map[p := Worker(Loop, o, o + 1, o + 1, o + 1)],
                     handled := s.handled + {(p, o)}, log := [Commit(p, o, o + 1)], attempts := [0])
  {
    hide Reaches;
    var o := s.parts[p].fetch;
    var s1 := DoMain(c, s, PollRecords(map[p := 1])).value;
    assert s1 == s.(main := Processing, parts := s.parts[p := s.parts[p].(fetch := o + 1)],
                    workers := map[p := Worker(Loop, o, o + 1, o, o)]);
    ReachesStep(c, partitions, s, PollRecords(map[p := 1]), s1);
    s' := HandleOne(c, partitions, s1, p, o);
  }

  lemma HandleOne(c: Config, partitions: set<int>, s: State, p: int, o: nat) returns (s': State)
    requires Reaches(c, partitions, s) && c.batch > 0 && c.cap > 0 && !s.cancelled && !s.closing && !s.closed
    requires s.workers == map[p := Worker(Loop, o, o + 1, o, o)] && s.log == [] && s.taken == 0 && s.attempts == []
    ensures Reaches(c, partitions, s')
    ensures s' == s.(workers := map[p := Worker(Loop, o, o + 1, o + 1, o + 1)],
                     handled := s.handled + {(p, o)}, log := [Commit(p, o, o + 1)], attempts := [0])
  {
    hide Reaches;
    var s2 := DoWorker(c, s, WorkerTop(p)).value;
    ReachesStep(c, partitions, s, WorkerTop(p), s2);
    var s3 := DoWorker(c, s2, RunHandler(p)).value;
    ReachesStep(c, partitions, s2, RunHandler(p), s3);
    var s4 := DoWorker(c, s3, EnterEnqueue(p)).value;
    ReachesStep(c, partitions, s3, EnterEnqueue(p), s4);
    s' := DoWorker(c, s4, Enqueue(p)).value;
    ReachesStep(c, partitions, s4, Enqueue(p), s');
  }

  /** The commit worker takes the only message and commits it at the first try. */
  lemma CommitOnly(c: Config, partitions: set<int>, s: State) returns (s': State)
    requires Reaches(c, partitions, s) && s.cpc == Ready && s.taken == 0 && |s.log| == 1 == |s.attempts|
    requires s.log[0].Commit? && s.log[0].p in s.parts
    ensures Reaches(c, partitions, s') && s'.handled == s.handled
    ensures var p := s.log[0].p; s'.parts == s.parts[p := s.parts[p].(committed := s.log[0].hi)]
    ensures Do(c, s.(taken := 1, cpc := Trying(0)), Attempt(true, true)) == Some(s')
    ensures Reaches(c, partitions, s.(taken := 1, cpc := Trying(0)))
  {
    hide Reaches;
    var s1 := s.(taken := 1, cpc := Trying(0));
    ReachesStep(c, partitions, s, Take, s1);
    s' := DoCommit(c, s1, Attempt(true, true)).value;
    ReachesStep(c, partitions, s1, Attempt(true, true), s');
  }

  lemma FirstPoll(c: Config, partitions: set<int>, p: int) returns (s: State)
    requires p in partitions
    ensures Reaches(c, partitions, s)
    ensures s == Init(partitions).(main := Polling, parts := Init(partitions).parts[p := Part(true, 0, 0, true, false)])
  {
    hide Reaches;
    var s0 := Init(partitions);
    ReachesInit(c, partitions);
    var s1 := s0.(main := Polling);
    ReachesStep(c, partitions, s0, CheckCtx, s1);
    s := s1.(parts := s1.parts[p := Part(true, 0, 0, true, false)]);
    assert NothingPending(s1, p) && DoMain(c, s1, Assign(p, 0)).value.handled == {};
    assert DoMain(c, s1, Assign(p, 0)).value == s;
    ReachesStep(c, partitions, s1, Assign(p, 0), s);
  }

  /** If an error poll may carry records, a record can be skipped: committed past, never handled. */
  lemma LossyPollSkips(c: Config, partitions: set<int>, p: int) returns (s: State)
    requires p in partitions && c.batch > 0 && c.cap > 0 && c.lossy
    ensures Reaches(c, partitions, s) && !AtLeastOnce(s)
  {
    hide Reaches;
    var s1 := FirstPoll(c, partitions, p);
    var lost := map[p := 1];
    var s2 := s1.(main := Allowing, parts := s1.parts[p := Part(true, 1, 0, true, false)]);
    assert Advance(s1.parts, lost) == s2.parts;
    ReachesStep(c, partitions, s1, PollError(lost), s2);
    var s3 := s2.(main := Top);
    ReachesStep(c, partitions, s2, AllowDone, s3);
    var s4 := s3.(main := Polling);
    ReachesStep(c, partitions, s3, CheckCtx, s4);
    var s5 := OneRecord(c, partitions, s4, p);
    s := CommitOnly(c, partitions, s5);
    var o: nat := 0;
    assert (p, o) !in s.handled && s.parts[p].committed == 2 && !Covered(s.handled, p, 2);
  }

  /** At-least-once holds in every reachable state exactly when error polls carry no records. */
  lemma AtLeastOnceIff(c: Config, partitions: set<int>, p: int)
    requires p in partitions && c.batch > 0 && c.cap > 0
    ensures (forall s :: Reaches(c, partitions, s) ==> AtLeastOnce(s)) <==> !c.lossy
  {
    if c.lossy {
      var s := LossyPollSkips(c, partitions, p);
    } else {
      forall s | Reaches(c, partitions, s) ensures AtLeastOnce(s) {
        var states, actions :| IsRun(c, partitions, states, actions) && states[|actions|] == s;
        RunInv(c, partitions, states, actions, |actions|);
        forall q | q in s.parts ensures Covered(s.handled, q, s.parts[q].committed) {
          assert Safe(c, s.handled, q, s.parts[q].committed);
        }
      }
    }
  }

  /** A commit left over from before a revocation whose flush was given up can move the offset back. */
  lemma LeftoverCommitGoesBack(c: Config, partitions: set<int>, p: int) returns (s: State, s': State)
    requires p in partitions && c.batch > 0 && c.cap > 0 && c.hurried
    ensures Reaches(c, partitions, s) && Do(c, s, Attempt(true, true)) == Some(s')
    ensures p in s.parts && p in s'.parts
    ensures s.parts[p].held && !s.parts[p].clean && s'.parts[p].held && s'.parts[p].committed < s.parts[p].committed
  {
    hide Reaches;
    var s1 := FirstPoll(c, partitions, p);
    var s2 := OneRecord(c, partitions, s1, p);
    var s3 := s2.(workers := map[p := Worker(Finished, 0, 1, 1, 1)]);
    assert s2.workers[p := Worker(Finished, 0, 1, 1, 1)] == s3.workers;
    ReachesStep(c, partitions, s2, WorkerTop(p), s3);
    var s4 := s3.(main := Allowing, workers := map[]);
    ReachesStep(c, partitions, s3, WaitAll, s4);
    var s5 := s4.(main := RevokeSend({p}));
    ReachesStep(c, partitions, s4, RevokeStart({p}), s5);
    var s6 := DoMain(c, s5, GiveUpBarrier).value;
    ReachesStep(c, partitions, s5, GiveUpBarrier, s6);
    var s7 := DoMain(c, s6, Assign(p, 5)).value;
    assert !NothingPending(s6, p) by { assert s6.log[0].Commit? && s6.log[0].p == p; }
    ReachesStep(c, partitions, s6, Assign(p, 5), s7);
    s' := CommitOnly(c, partitions, s7);
    s := s7.(taken := 1, cpc := Trying(0));
  }

  /** No step moves back the committed offset of a partition that is held. */
  ghost predicate StepsForward(c: Config, s: State) {
    forall a, p :: Do(c, s, a).Some? && p in s.parts && s.parts[p].held ==>
      p in Do(c, s, a).value.parts && s.parts[p].committed <= Do(c, s, a).value.parts[p].committed
  }

  /** Commits of held partitions are monotone in every run exactly when revokes wait for their flush. */
  lemma MonotoneIff(c: Config, partitions: set<int>, p: int)
    requires p in partitions && c.batch > 0 && c.cap > 0
    ensures (forall s :: Reaches(c, partitions, s) ==> StepsForward(c, s)) <==> !c.hurried
  {
    hide Do, Inv;
    if c.hurried {
      var s, s' := LeftoverCommitGoesBack(c, partitions, p);
      assert !StepsForward(c, s) by { assert Do(c, s, Attempt(true, true)) == Some(s'); }
    } else {
      forall s | Reaches(c, partitions, s) ensures StepsForward(c, s) {
        var states, actions :| IsRun(c, partitions, states, actions) && states[|actions|] == s;
        RunInv(c, partitions, states, actions, |actions|);
        RunClean(c, partitions, states, actions, |actions|);
        forall a, q | Do(c, s, a).Some? && q in s.parts && s.parts[q].held
          ensures q in Do(c, s, a).value.parts && s.parts[q].committed <= Do(c, s, a).value.parts[q].committed {
          CommitsAreMonotone(c, s, a, q);
        }
      }
    }
  }

  // ---- splitting a poll by partition ----------------------------------------------------------------------

  datatype Record = Record(p: int, offset: nat)

  /** The records of one partition, in poll order. */
  function OfPartition(records: seq<Record>, p: int): seq<Record> {
    if records == [] then []
    else
      var last := records[|records| - 1];
      OfPartition(records[..|records| - 1], p) + if last.p == p then [last] else []
  }

  /** They are exactly the records of that partition, in poll order. */
  lemma {:induction false} OfPartitionExactly(records: seq<Record>, p: int) returns (ks: seq<nat>)
    ensures Picks(ks, records, (r: Record) => r.p == p) && |OfPartition(records, p)| == |ks|
    ensures forall j :: 0 <= j < |ks| ==> ks[j] < |records| && OfPartition(records, p)[j] == records[ks[j]]
  {
    if records == [] {
      ks := [];
    } else {
      var n := |records| - 1;
      var front := OfPartitionExactly(records[..n], p);
      forall k | k in front ensures k < n { }
      forall j | 0 <= j < |front| ensures front[j] < n { assert front[j] in front; }
      ks := front + if records[n].p == p then [n] else [];
      forall k: nat ensures k in ks <==> k < |records| && records[k].p == p {
        if k < n { assert records[..n][k] == records[k]; }
      }
    }
  }

  method GroupByPartition(records: seq<Record>) returns (batches: map<int, seq<Record>>)
    ensures forall p :: p in batches <==> OfPartition(records, p) != []
    ensures forall p :: p in batches ==> batches[p] == OfPartition(records, p)
  {
    batches := map[];
    for i := 0 to |records|
      invariant forall p :: p in batches <==> OfPartition(records[..i], p) != []
      invariant forall p :: p in batches ==> batches[p] == OfPartition(records[..i], p)
    {
      var r := records[i];
      assert records[..i + 1][..i] == records[..i];
      batches := batches[r.p := (if r.p in batches then batches[r.p] else []) + [r]];
    }
    assert records[..|records|] == records;
  }
}
