/** What every reachable state of the protocol keeps: the counters, the pinning of tasks, one wake
    for one wait, timeouts that are never early, and a clean shutdown. */
module ProtocolSafety {
  import opened Options
  import opened IoEvents
  import opened IoMoves
  import opened Protocol
  import T = Timers

  // ---- counters ---------------------------------------------------------------------------

  function NumHolding(threads: seq<Thread>): nat {
    if threads == [] then 0
    else NumHolding(threads[..|threads| - 1]) + (if threads[|threads| - 1].phase.Holding? then 1 else 0)
  }

  function NumIdle(threads: seq<Thread>): nat {
    if threads == [] then 0
    else NumIdle(threads[..|threads| - 1]) + (if InIdle(threads[|threads| - 1].phase) then 1 else 0)
  }

  lemma {:induction false} NumUpdate(threads: seq<Thread>, t: nat, th: Thread)
    requires t < |threads|
    ensures NumHolding(threads[t := th]) ==
            NumHolding(threads) - (if threads[t].phase.Holding? then 1 else 0) + (if th.phase.Holding? then 1 else 0)
    ensures NumIdle(threads[t := th]) ==
            NumIdle(threads) - (if InIdle(threads[t].phase) then 1 else 0) + (if InIdle(th.phase) then 1 else 0)
  {
    var n := |threads| - 1;
    if t == n {
      assert threads[t := th][..n] == threads[..n];
    } else {
      NumUpdate(threads[..n], t, th);
      assert threads[t := th][..n] == threads[..n][t := th];
    }
  }

  lemma {:induction false} NoneHolds(threads: seq<Thread>)
    ensures NumHolding(threads) == 0 <==> forall t | 0 <= t < |threads| :: !threads[t].phase.Holding?
  {
    if threads != [] { NoneHolds(threads[..|threads| - 1]); }
  }

  /** The active count is the threads with a task in hand, the idle count those in idle, and every
      task submitted is queued, in a thread's hands or completed. */
  ghost predicate CountsOk(queued: nat, threads: seq<Thread>, active: int, idle: int, submitted: nat, completed: nat) {
    active == NumHolding(threads) && idle == NumIdle(threads) && submitted == queued + NumHolding(threads) + completed
  }

  ghost predicate Counts(s: Sys) { CountsOk(|s.tasks|, s.threads, s.active, s.idle, s.submitted, s.completed) }

  // ---- pinning -------------------------------------------------------------------------------

  /** A pinned task runs only on its thread, and a fiber runs on one thread at a time. */
  ghost predicate PinnedOk(threads: seq<Thread>) {
    && (forall t | 0 <= t < |threads| && threads[t].phase.Holding? :: threads[t].phase.task.thread in [-1, t])
    && (forall t, u, f | 0 <= t < |threads| && 0 <= u < |threads| && Runs(threads[t].phase, f) && Runs(threads[u].phase, f) :: t == u)
  }

  // ---- shutdown --------------------------------------------------------------------------------

  /** A thread leaves run only after its idle fiber has ended, and that only after stop. */
  ghost predicate EndedOk(threads: seq<Thread>, stop: bool) {
    forall t | 0 <= t < |threads| ::
      && (threads[t].phase.Gone? ==> threads[t].idleEnded)
      && (threads[t].idleEnded ==> stop && !InIdle(threads[t].phase))
  }

  ghost predicate AllEnded(threads: seq<Thread>) { forall t | 0 <= t < |threads| :: threads[t].idleEnded }

  /** No queued task, no running task, no registered event, no armed timer, no expired callback
      that is not scheduled yet. */
  ghost predicate Quiet(s: Sys) {
    && s.tasks == [] && s.active == 0 && s.io.pending == 0 && s.tm.order == []
    && (forall t | 0 <= t < |s.threads| :: !s.threads[t].phase.Holding? && !s.threads[t].phase.Posting?)
  }

  // ---- one wake for one wait -----------------------------------------------------------------

  ghost predicate UniqueFibers(tasks: seq<Task>) {
    forall i, j | 0 <= i < j < |tasks| && tasks[i].work.FiberWork? :: tasks[i].work != tasks[j].work
  }

  /** While a fiber waits it is in the queue exactly if its registration was scheduled. */
  ghost predicate WaitsOk(tasks: seq<Task>, fate: seq<Fate>, wait: map<nat, nat>) {
    forall f | f in wait :: wait[f] < |fate| && (Queued(tasks, f) <==> fate[wait[f]].Scheduled?)
  }

  /** A registered fiber waits for this registration and no other. */
  ghost predicate ContextsOk(io: Io, wait: map<nat, nat>) {
    forall fd, e | 0 <= fd < |io.fds| && CtxAt(io, fd, e).Filled? && CtxAt(io, fd, e).waiter.Fiber? ::
      CtxAt(io, fd, e).waiter.id in wait && wait[CtxAt(io, fd, e).waiter.id] == CtxAt(io, fd, e).reg
  }

  /** A waiting fiber is the waiter of its registration. */
  ghost predicate FibersOk(io: Io, wait: map<nat, nat>) {
    forall f | f in wait && wait[f] < |io.fate| && io.fate[wait[f]].Waiting? :: WaiterOf(io, wait[f]) == Some(Fiber(f))
  }

  function WaiterOf(io: Io, r: nat): Option<Waiter>
    requires r < |io.fate|
  {
    match io.fate[r]
    case Waiting(fd, e) => if fd < |io.fds| && CtxAt(io, fd, e).Filled? then Some(CtxAt(io, fd, e).waiter) else None
    case _ => None
  }

  /** A running fiber that waits is about to yield. */
  ghost predicate ParkedOk(threads: seq<Thread>, wait: map<nat, nat>) {
    forall t, f | 0 <= t < |threads| && Runs(threads[t].phase, f) && f in wait :: threads[t].phase.parked
  }

  ghost predicate WakeOnce(s: Sys) {
    && UniqueFibers(s.tasks) && WaitsOk(s.tasks, s.io.fate, s.wait) && ContextsOk(s.io, s.wait) && FibersOk(s.io, s.wait)
    && ParkedOk(s.threads, s.wait)
  }

  // ---- timeouts -----------------------------------------------------------------------------------

  /** The timeout of this call may be taken: it is over, or its time has come. */
  ghost predicate Elapsed(calls: map<nat, Hooked>, nextCall: nat, now: nat, w: Work) {
    w.TimeoutWork? ==> w.c < nextCall && (w.c in calls ==> calls[w.c].since + calls[w.c].to <= now)
  }

  ghost predicate CallsOk(calls: map<nat, Hooked>, nextCall: nat, now: nat) {
    forall c | c in calls :: c < nextCall && (calls[c].cancelled ==> calls[c].since + calls[c].to <= now) && calls[c].since <= now
  }

  ghost predicate TasksInTime(tasks: seq<Task>, calls: map<nat, Hooked>, nextCall: nat, now: nat) {
    forall i | 0 <= i < |tasks| :: Elapsed(calls, nextCall, now, tasks[i].work)
  }

  ghost predicate ThreadsInTime(threads: seq<Thread>, calls: map<nat, Hooked>, nextCall: nat, now: nat) {
    forall t | 0 <= t < |threads| ::
      && (threads[t].phase.Holding? ==> Elapsed(calls, nextCall, now, threads[t].phase.task.work))
      && (threads[t].phase.Posting? ==> forall w | w in threads[t].phase.works :: !w.FiberWork? && Elapsed(calls, nextCall, now, w))
  }

  /** An armed timeout comes no earlier than its call allows. */
  ghost predicate TimersInTime(tm: T.State, calls: map<nat, Hooked>, nextCall: nat) {
    forall a | a in tm.timer && tm.timer[a].cb.Some? && tm.timer[a].cb.value % 2 == 1 ::
      var c := tm.timer[a].cb.value / 2;
      c < nextCall && !tm.timer[a].recurring && (c in calls ==> calls[c].since + calls[c].to <= tm.timer[a].next)
  }

  ghost predicate InTime(s: Sys) {
    && CallsOk(s.calls, s.nextCall, s.now) && TasksInTime(s.tasks, s.calls, s.nextCall, s.now)
    && ThreadsInTime(s.threads, s.calls, s.nextCall, s.now) && TimersInTime(s.tm, s.calls, s.nextCall)
  }

  // ---- all together --------------------------------------------------------------------------------

  ghost predicate Parts(s: Sys) { Coherent(s.io) && T.Coherent(s.tm) && DeadlinesFit(s.tm.timer) && s.tm.previous <= s.now && 0 < s.now }

  /** Deadlines are 64-bit words. */
  ghost predicate DeadlinesFit(timer: map<nat, T.Timer>) { forall a | a in timer :: timer[a].next < T.WORD }

  ghost predicate Inv(s: Sys) {
    && Parts(s) && Counts(s) && PinnedOk(s.threads) && EndedOk(s.threads, s.stop)
    && (0 < |s.threads| && AllEnded(s.threads) ==> Quiet(s))
    && WakeOnce(s) && InTime(s)
  }

  lemma {:induction false} NoThreadBusy(n: nat)
    ensures NumHolding(seq(n, _ => Thread(Ready, false))) == 0 && NumIdle(seq(n, _ => Thread(Ready, false))) == 0
  {
    if n > 0 {
      NoThreadBusy(n - 1);
      assert seq(n, _ => Thread(Ready, false))[..n - 1] == seq(n - 1, _ => Thread(Ready, false));
    }
  }

  lemma BootInv(threads: nat, now: nat)
    requires 0 < now
    ensures Inv(Boot(threads, now))
  {
    hide NumHolding, NumIdle, Accounted, EpollMatches;
    NoThreadBusy(threads);
    StartCoherent();
  }

  // ---- steps of the queue and of time --------------------------------------------------------------

  lemma BusyNotEnded(s: Sys, t: nat)
    requires Inv(s) && t < |s.threads| && (s.threads[t].phase.Holding? || InIdle(s.threads[t].phase))
    ensures !AllEnded(s.threads)
  {
    hide Parts, Counts, WakeOnce, InTime, PinnedOk;
  }

  lemma AdvanceKeeps(s: Sys, ms: nat)
    requires Inv(s)
    ensures Inv(s.(now := s.now + ms))
  {
    hide Coherent, T.Coherent, DeadlinesFit, CountsOk, PinnedOk, EndedOk, AllEnded, UniqueFibers, WaitsOk,
      ContextsOk, FibersOk, ParkedOk, TimersInTime;
  }

  lemma PushKeeps(s: Sys, task: Task)
    requires Inv(s) && Push(s, task).Some? && (0 < |s.threads| ==> !AllEnded(s.threads))
    ensures Inv(Push(s, task).value)
  {
    hide Coherent, T.Coherent, DeadlinesFit, NumHolding, NumIdle, PinnedOk, EndedOk, AllEnded, CallsOk,
      ThreadsInTime, TimersInTime, ContextsOk, FibersOk, ParkedOk;
    QueuedAppend(s.tasks, [task]);
  }

  lemma QueuedAppend(a: seq<Task>, b: seq<Task>)
    ensures forall f :: Queued(a + b, f) <==> Queued(a, f) || Queued(b, f)
  {
    forall f | Queued(a, f) || Queued(b, f) ensures Queued(a + b, f) {
      if Queued(a, f) {
        var i :| 0 <= i < |a| && a[i].work == FiberWork(f);
        assert (a + b)[i].work == FiberWork(f);
      } else {
        var i :| 0 <= i < |b| && b[i].work == FiberWork(f);
        assert (a + b)[|a| + i].work == FiberWork(f);
      }
    }
  }

  lemma NobodyOutsideAfterStop(s: Sys)
    requires EndedOk(s.threads, s.stop) && !s.stop && 0 < |s.threads|
    ensures !AllEnded(s.threads)
  {
    assert !s.threads[0].idleEnded;
  }

  lemma HaltKeeps(s: Sys)
    requires Inv(s)
    ensures Inv(s.(stop := true))
  {
    hide Coherent, T.Coherent, DeadlinesFit, CountsOk, PinnedOk, AllEnded, UniqueFibers, WaitsOk, ContextsOk,
      FibersOk, ParkedOk;
    hide CallsOk, TasksInTime, ThreadsInTime, TimersInTime;
  }

  // ---- steps of run -----------------------------------------------------------------------------------

  lemma RemoveAt(tasks: seq<Task>, i: nat)
    requires i < |tasks| && UniqueFibers(tasks)
    ensures var rest := tasks[..i] + tasks[i + 1..];
            && UniqueFibers(rest)
            && (forall f :: Queued(rest, f) <==> Queued(tasks, f) && tasks[i].work != FiberWork(f))
            && (forall task | task in rest :: task in tasks)
  {
    var rest := tasks[..i] + tasks[i + 1..];
    forall f ensures Queued(rest, f) <==> Queued(tasks, f) && tasks[i].work != FiberWork(f) {
      if Queued(tasks, f) && tasks[i].work != FiberWork(f) {
        var j :| 0 <= j < |tasks| && tasks[j].work == FiberWork(f);
        assert rest[if j < i then j else j - 1].work == FiberWork(f);
      }
    }
  }

  lemma FilledWaits(io: Io)
    requires Coherent(io)
    ensures forall fd, e | 0 <= fd < |io.fds| && CtxAt(io, fd, e).Filled? ::
              CtxAt(io, fd, e).reg < |io.fate| && io.fate[CtxAt(io, fd, e).reg].Waiting?
  {
    forall fd, e | 0 <= fd < |io.fds| && CtxAt(io, fd, e).Filled?
      ensures CtxAt(io, fd, e).reg < |io.fate| && io.fate[CtxAt(io, fd, e).reg].Waiting?
    {
      assert Tracked(io, fd, e);
    }
  }

  lemma PickWakes(s: Sys, i: nat, t: nat)
    requires WakeOnce(s) && Coherent(s.io) && i < |s.tasks| && t < |s.threads| && !s.threads[t].phase.Holding?
    requires s.tasks[i].work.FiberWork? ==> !Running(s, s.tasks[i].work.f)
    ensures var task := s.tasks[i];
            var wait := if task.work.FiberWork? then s.wait - {task.work.f} else s.wait;
            var rest := s.tasks[..i] + s.tasks[i + 1..];
            && UniqueFibers(rest) && WaitsOk(rest, s.io.fate, wait) && ContextsOk(s.io, wait) && FibersOk(s.io, wait)
            && ParkedOk(s.threads[t := s.threads[t].(phase := Holding(task, false))], wait)
  {
    hide Coherent;
    FilledWaits(s.io);
    RemoveAt(s.tasks, i);
    assert s.tasks[i].work.FiberWork? ==> Queued(s.tasks, s.tasks[i].work.f);
  }

  /** A thread goes on without a task in its hands. */
  lemma ThreadMoves(s: Sys, t: nat, th: Thread)
    requires t < |s.threads| && !th.phase.Holding?
    requires PinnedOk(s.threads) && EndedOk(s.threads, s.stop) && ParkedOk(s.threads, s.wait)
    requires ThreadsInTime(s.threads, s.calls, s.nextCall, s.now)
    requires (th.phase.Gone? ==> th.idleEnded) && (th.idleEnded ==> s.stop && !InIdle(th.phase))
    requires th.phase.Posting? ==> forall w | w in th.phase.works :: !w.FiberWork? && Elapsed(s.calls, s.nextCall, s.now, w)
    ensures var threads := s.threads[t := th];
            && PinnedOk(threads) && EndedOk(threads, s.stop) && ParkedOk(threads, s.wait)
            && ThreadsInTime(threads, s.calls, s.nextCall, s.now)
            && (AllEnded(threads) && th.idleEnded == s.threads[t].idleEnded ==> AllEnded(s.threads))
            && (AllEnded(threads) ==> forall u | 0 <= u < |s.threads| && u != t :: s.threads[u].idleEnded)
            && NumHolding(threads) == NumHolding(s.threads) - (if s.threads[t].phase.Holding? then 1 else 0)
            && NumIdle(threads) == NumIdle(s.threads) - (if InIdle(s.threads[t].phase) then 1 else 0) + (if InIdle(th.phase) then 1 else 0)
  {
    hide NumHolding, NumIdle, Elapsed, InIdle;
    NumUpdate(s.threads, t, th);
    var threads := s.threads[t := th];
    forall u, f | 0 <= u < |threads| && Runs(threads[u].phase, f) && f in s.wait ensures threads[u].phase.parked {
      assert Runs(s.threads[u].phase, f);
    }
    if AllEnded(threads) {
      forall u | 0 <= u < |s.threads| && u != t ensures s.threads[u].idleEnded { assert threads[u].idleEnded; }
      assert threads[t].idleEnded;
    }
  }

  lemma PickKeeps(s: Sys, t: nat)
    requires Inv(s) && t < |s.threads| && s.threads[t].phase.Ready? && PickTask(s, t).Some?
    ensures Inv(PickTask(s, t).value)
  {
    hide Coherent, T.Coherent, DeadlinesFit, NumHolding, NumIdle, UniqueFibers, WaitsOk, ContextsOk, FibersOk,
      ParkedOk, CallsOk, TimersInTime, Search;
    hide PinnedOk, EndedOk, AllEnded, ThreadsInTime;
    var i := Search(s, t, 0);
    var task := s.tasks[i];
    PickWakes(s, i, t);
    RemoveAt(s.tasks, i);
    assert task in s.tasks;
    NumUpdate(s.threads, t, Thread(Holding(task, false), s.threads[t].idleEnded));
    ThreadPicks(s, t, task);
  }

  lemma ThreadPicks(s: Sys, t: nat, task: Task)
    requires t < |s.threads| && s.threads[t].phase.Ready? && Eligible(s, t, task)
    requires PinnedOk(s.threads) && EndedOk(s.threads, s.stop) && ThreadsInTime(s.threads, s.calls, s.nextCall, s.now)
    requires Elapsed(s.calls, s.nextCall, s.now, task.work)
    ensures var threads := s.threads[t := s.threads[t].(phase := Holding(task, false))];
            && PinnedOk(threads) && EndedOk(threads, s.stop) && ThreadsInTime(threads, s.calls, s.nextCall, s.now)
            && (AllEnded(threads) ==> AllEnded(s.threads))
  {
    var threads := s.threads[t := s.threads[t].(phase := Holding(task, false))];
    forall u, v, f | 0 <= u < |threads| && 0 <= v < |threads| && Runs(threads[u].phase, f) && Runs(threads[v].phase, f)
      ensures u == v
    {
      if u != t { assert Runs(s.threads[u].phase, f); }
      if v != t { assert Runs(s.threads[v].phase, f); }
    }
    if AllEnded(threads) {
      forall u | 0 <= u < |s.threads| ensures s.threads[u].idleEnded { assert threads[u].idleEnded; }
    }
  }

  lemma RestKeeps(s: Sys, t: nat)
    requires Inv(s) && t < |s.threads| && s.threads[t].phase.Ready? && RestThread(s, t).Some?
    ensures Inv(RestThread(s, t).value)
  {
    hide Search;
    hide Coherent, T.Coherent, DeadlinesFit, NumHolding, NumIdle, UniqueFibers, WaitsOk, ContextsOk, FibersOk,
      ParkedOk, CallsOk, TasksInTime, ThreadsInTime, TimersInTime, PinnedOk, EndedOk, AllEnded;
    EndedAt(s, t);
    ThreadMoves(s, t, s.threads[t].(phase := if s.threads[t].idleEnded then Gone else Top));
  }

  lemma EndedAt(s: Sys, t: nat)
    requires EndedOk(s.threads, s.stop) && t < |s.threads|
    ensures s.threads[t].idleEnded ==> s.stop && !InIdle(s.threads[t].phase)
  {}

  lemma FinishKeeps(s: Sys, t: nat)
    requires Inv(s) && t < |s.threads| && s.threads[t].phase.Holding?
    ensures Inv(Move(s, t, Ready).(active := s.active - 1, completed := s.completed + 1))
  {
    hide Coherent, T.Coherent, DeadlinesFit, NumHolding, NumIdle, UniqueFibers, WaitsOk, ContextsOk, FibersOk,
      ParkedOk, CallsOk, TasksInTime, ThreadsInTime, TimersInTime, PinnedOk, EndedOk, AllEnded;
    BusyNotEnded(s, t);
    EndedAt(s, t);
    ThreadMoves(s, t, s.threads[t].(phase := Ready));
  }

  // ---- steps of idle --------------------------------------------------------------------------------

  /** stopping in one step sees no armed timer. */
  lemma StoppingMeansNoTimer(s: Sys)
    requires T.Coherent(s.tm) && 0 < s.now && Stopping(s) && DeadlinesFit(s.tm.timer)
    ensures s.tm.order == []
  {}

  lemma CheckKeeps(s: Sys, t: nat)
    requires Inv(s) && t < |s.threads| && s.threads[t].phase.Top?
    ensures Inv(CheckIdle(s, t))
  {
    hide Coherent, T.Coherent, DeadlinesFit, NumHolding, NumIdle, UniqueFibers, WaitsOk, ContextsOk, FibersOk,
      ParkedOk, CallsOk, TasksInTime, ThreadsInTime, TimersInTime, PinnedOk, EndedOk, AllEnded;
    EndedAt(s, t);
    TickledDoesNotMatter(s.tm, s.calls, s.nextCall);
    if Stopping(s) {
      StoppingMeansNoTimer(s);
      NoneHolds(s.threads);
      ThreadMoves(s, t, Thread(Ready, true));
      EndedIsNotIdle(s);
    } else {
      BusyNotEnded(s, t);
      ThreadMoves(s, t, s.threads[t].(phase := Polling));
    }
  }

  lemma EndedIsNotIdle(s: Sys)
    requires EndedOk(s.threads, s.stop)
    ensures forall u | 0 <= u < |s.threads| && s.threads[u].idleEnded :: !s.threads[u].phase.Posting?
  {}

  lemma TickledDoesNotMatter(tm: T.State, calls: map<nat, Hooked>, nextCall: nat)
    requires T.Coherent(tm) && TimersInTime(tm, calls, nextCall)
    ensures T.Known(tm.timer, tm.order) && T.Coherent(tm.(tickled := false)) && TimersInTime(tm.(tickled := false), calls, nextCall)
  {
    hide T.Sorted;
  }

  lemma PostKeeps(s: Sys, t: nat)
    requires Inv(s) && t < |s.threads| && s.threads[t].phase.Posting?
    ensures Inv(PostOne(s, t))
  {
    hide Coherent, T.Coherent, DeadlinesFit, NumHolding, NumIdle, UniqueFibers, WaitsOk, ContextsOk, FibersOk,
      ParkedOk, CallsOk, TasksInTime, ThreadsInTime, TimersInTime, PinnedOk, EndedOk, AllEnded;
    BusyNotEnded(s, t);
    EndedAt(s, t);
    PostsAt(s, t);
    var works := s.threads[t].phase.works;
    if works == [] {
      ThreadMoves(s, t, s.threads[t].(phase := Handling));
    } else {
      ThreadMoves(s, t, s.threads[t].(phase := Posting(works[1..])));
      assert works[0] in works;
      PlainTask(s, Task(works[0], -1));
      assert Anywhere([works[0]]) == [Task(works[0], -1)];
    }
  }

  lemma PostsAt(s: Sys, t: nat)
    requires ThreadsInTime(s.threads, s.calls, s.nextCall, s.now) && t < |s.threads| && s.threads[t].phase.Posting?
    ensures forall w | w in s.threads[t].phase.works :: !w.FiberWork? && Elapsed(s.calls, s.nextCall, s.now, w)
  {}

  /** One more callback in the queue. */
  lemma PlainTask(s: Sys, task: Task)
    requires !task.work.FiberWork? && Elapsed(s.calls, s.nextCall, s.now, task.work)
    requires UniqueFibers(s.tasks) && WaitsOk(s.tasks, s.io.fate, s.wait) && TasksInTime(s.tasks, s.calls, s.nextCall, s.now)
    ensures var tasks := s.tasks + [task];
            UniqueFibers(tasks) && WaitsOk(tasks, s.io.fate, s.wait) && TasksInTime(tasks, s.calls, s.nextCall, s.now)
  {
    hide Elapsed;
    QueuedAppend(s.tasks, [task]);
  }

  lemma LeaveKeeps(s: Sys, t: nat)
    requires Inv(s) && t < |s.threads| && s.threads[t].phase.Handling?
    ensures Inv(Move(s, t, Ready).(idle := s.idle - 1))
  {
    hide Coherent, T.Coherent, DeadlinesFit, NumHolding, NumIdle, UniqueFibers, WaitsOk, ContextsOk, FibersOk,
      ParkedOk, CallsOk, TasksInTime, ThreadsInTime, TimersInTime, PinnedOk, EndedOk, AllEnded;
    BusyNotEnded(s, t);
    EndedAt(s, t);
    ThreadMoves(s, t, s.threads[t].(phase := Ready));
  }

  /** The callbacks that have expired, as work to post. */
  lemma ExpiredInTime(s: Sys)
    requires Parts(s) && TimersInTime(s.tm, s.calls, s.nextCall)
    ensures T.Known(s.tm.timer, s.tm.order)
    ensures var (tm, cbs) := T.ListExpired(s.tm, s.now);
            && T.Coherent(tm) && DeadlinesFit(tm.timer) && tm.previous <= s.now && TimersInTime(tm, s.calls, s.nextCall)
            && (forall w | w in TimerWorks(cbs) :: !w.FiberWork? && Elapsed(s.calls, s.nextCall, s.now, w))
  {
    hide Coherent, T.ListExpired, T.Due, T.Sorted;
    T.ExpiryIsExact(s.tm, s.now);
    T.PreviousIsPast(s.tm, s.now);
    var (tm, cbs) := T.ListExpired(s.tm, s.now);
    var k := T.Due(s.tm.timer, s.tm.order, s.now);
    forall w | w in TimerWorks(cbs) ensures !w.FiberWork? && Elapsed(s.calls, s.nextCall, s.now, w) {
      var i :| 0 <= i < |cbs| && cbs[i].Some? && w == TimerWork(cbs[i].value);
      var a := s.tm.order[i];
      assert a in s.tm.order && a in s.tm.timer && s.tm.timer[a].cb == cbs[i];
      assert a in s.tm.order[..k] by { assert s.tm.order[..k][i] == a; }
    }
  }

  lemma WakeKeeps(s: Sys, t: nat)
    requires Inv(s) && t < |s.threads| && s.threads[t].phase.Polling?
    ensures Inv(WakeUp(s, t))
  {
    hide Coherent, T.Coherent, DeadlinesFit, NumHolding, NumIdle, UniqueFibers, WaitsOk, ContextsOk, FibersOk,
      ParkedOk, CallsOk, TasksInTime, ThreadsInTime, TimersInTime, PinnedOk, EndedOk, AllEnded;
    hide T.ListExpired;
    ExpiredInTime(s);
    BusyNotEnded(s, t);
    EndedAt(s, t);
    var (tm, cbs) := T.ListExpired(s.tm, s.now);
    ThreadMoves(s, t, s.threads[t].(phase := Posting(TimerWorks(cbs))));
  }

  // ---- registrations that move -----------------------------------------------------------------------

  lemma MovedWakes(s: Sys, io: Io)
    requires Coherent(s.io) && Coherent(io) && Moves(s.io, io)
    requires UniqueFibers(s.tasks) && WaitsOk(s.tasks, s.io.fate, s.wait) && ContextsOk(s.io, s.wait) && FibersOk(s.io, s.wait)
    ensures var tasks := s.tasks + Anywhere(WorksOf(io.woken[|s.io.woken|..]));
            UniqueFibers(tasks) && WaitsOk(tasks, io.fate, s.wait) && ContextsOk(io, s.wait) && FibersOk(io, s.wait)
  {
    hide Coherent, Moves, UniqueFibers, WaitsOk, ContextsOk, FibersOk;
    MovesFate(s.io, io);
    var more := Anywhere(WorksOf(io.woken[|s.io.woken|..]));
    NewAreWaiting(s, io);
    NewAreUnique(s, io);
    UniqueAppend(s.tasks, more);
    MovedWaits(s, io, more);
    MovedContexts(s, io);
  }

  /** What the woken entry i says about its fiber. */
  ghost predicate WokenWaits(s: Sys, io: Io, i: nat)
    requires i < |io.woken|
  {
    io.woken[i].waiter.Fiber? ==>
      var f := io.woken[i].waiter.id;
      && f in s.wait && s.wait[f] == io.woken[i].reg && !Queued(s.tasks, f)
      && s.wait[f] < |io.fate| && io.fate[s.wait[f]] == Scheduled(i)
  }

  lemma NewAreWaiting(s: Sys, io: Io)
    requires Coherent(s.io) && Coherent(io) && Moves(s.io, io)
    requires WaitsOk(s.tasks, s.io.fate, s.wait) && ContextsOk(s.io, s.wait)
    ensures |s.io.woken| <= |io.woken| && forall i | |s.io.woken| <= i < |io.woken| :: WokenWaits(s, io, i)
  {
    hide Coherent;
    forall i | |s.io.woken| <= i < |io.woken| ensures WokenWaits(s, io, i) {
      assert Came(s.io, io, i);
      WokenFate(io, i);
    }
  }

  lemma NewAreUnique(s: Sys, io: Io)
    requires |s.io.woken| <= |io.woken| && forall i | |s.io.woken| <= i < |io.woken| :: WokenWaits(s, io, i)
    ensures var more := Anywhere(WorksOf(io.woken[|s.io.woken|..]));
            UniqueFibers(more) && forall i | 0 <= i < |more| && more[i].work.FiberWork? :: !Queued(s.tasks, more[i].work.f)
  {
    hide Anywhere, WorksOf, Queued, WokenWaits;
    var n := |s.io.woken|;
    var more := Anywhere(WorksOf(io.woken[n..]));
    forall i | 0 <= i < |more| && more[i].work.FiberWork?
      ensures !Queued(s.tasks, more[i].work.f) && more[i].work == WorkOf(io.woken[n + i].waiter) && WokenAt(s, io, n + i)
    {
      assert io.woken[n..][i] == io.woken[n + i];
      WokenFiber(s, io, n + i);
    }
  }

  /** The registration that fiber entry i stood for is the one its fiber waits for, and no other's. */
  ghost predicate WokenAt(s: Sys, io: Io, i: nat)
    requires i < |io.woken|
  {
    io.woken[i].waiter.Fiber? ==>
      var f := io.woken[i].waiter.id;
      f in s.wait && s.wait[f] < |io.fate| && io.fate[s.wait[f]] == Scheduled(i)
  }

  lemma WokenFiber(s: Sys, io: Io, i: nat)
    requires i < |io.woken| && WokenWaits(s, io, i)
    ensures WokenAt(s, io, i) && (io.woken[i].waiter.Fiber? ==> !Queued(s.tasks, io.woken[i].waiter.id))
  {
    hide Queued;
  }

  lemma MovedWaits(s: Sys, io: Io, more: seq<Task>)
    requires Coherent(s.io) && Coherent(io) && Moves(s.io, io) && FibersOk(s.io, s.wait)
    requires WaitsOk(s.tasks, s.io.fate, s.wait) && more == Anywhere(WorksOf(io.woken[|s.io.woken|..]))
    requires forall i | |s.io.woken| <= i < |io.woken| :: WokenWaits(s, io, i)
    ensures WaitsOk(s.tasks + more, io.fate, s.wait)
  {
    hide Coherent, Moves, FibersOk;
    MovesFate(s.io, io);
    QueuedAppend(s.tasks, more);
    forall f | f in s.wait ensures s.wait[f] < |io.fate| && (Queued(s.tasks + more, f) <==> io.fate[s.wait[f]].Scheduled?) {
      FateMoves(s.io, io, s.wait[f]);
      if s.io.fate[s.wait[f]].Waiting? && io.fate[s.wait[f]].Scheduled? {
        var i := io.fate[s.wait[f]].index;
        WaitingFiberIsWoken(s, io, f, i);
        assert more[i - |s.io.woken|].work == WorkOf(io.woken[|s.io.woken|..][i - |s.io.woken|].waiter);
      }
      if Queued(more, f) {
        var j :| 0 <= j < |more| && more[j].work == FiberWork(f);
        assert more[j].work == WorkOf(io.woken[|s.io.woken|..][j].waiter) && WokenWaits(s, io, |s.io.woken| + j);
      }
    }
  }

  lemma MovesFate(a: Io, b: Io)
    requires Moves(a, b)
    ensures |a.fate| == |b.fate| && |a.woken| <= |b.woken|
  {}

  lemma FateMoves(a: Io, b: Io, r: nat)
    requires Moves(a, b) && r < |a.fate|
    ensures r < |b.fate| && (b.fate[r] == a.fate[r] || (a.fate[r].Waiting? && (b.fate[r].Dropped? || b.fate[r].Scheduled?)))
  {
    assert MovedTo(a, b, r);
  }

  lemma MovedContexts(s: Sys, io: Io)
    requires Coherent(s.io) && Coherent(io) && Moves(s.io, io) && ContextsOk(s.io, s.wait) && FibersOk(s.io, s.wait)
    ensures ContextsOk(io, s.wait) && FibersOk(io, s.wait)
  {
    forall f | f in s.wait && s.wait[f] < |io.fate| && io.fate[s.wait[f]].Waiting? ensures WaiterOf(io, s.wait[f]) == Some(Fiber(f)) {
      assert MovedTo(s.io, io, s.wait[f]);
      assert FateHolds(io, s.wait[f]);
    }
  }

  lemma WokenFate(io: Io, i: nat)
    requires Coherent(io) && i < |io.woken|
    ensures io.woken[i].reg < |io.fate| && io.fate[io.woken[i].reg] == Scheduled(i)
  {}

  lemma UniqueAppend(a: seq<Task>, b: seq<Task>)
    requires UniqueFibers(a) && UniqueFibers(b)
    requires forall i | 0 <= i < |b| && b[i].work.FiberWork? :: !Queued(a, b[i].work.f)
    ensures UniqueFibers(a + b)
  {}

  /** The entry that a waiting fiber's registration became carries that fiber. */
  lemma WaitingFiberIsWoken(s: Sys, io: Io, f: nat, i: nat)
    requires Coherent(s.io) && Coherent(io) && Moves(s.io, io) && FibersOk(s.io, s.wait)
    requires f in s.wait && s.wait[f] < |io.fate| && s.io.fate[s.wait[f]].Waiting? && io.fate[s.wait[f]] == Scheduled(i)
    ensures |s.io.woken| <= i < |io.woken| && io.woken[i].waiter == Fiber(f)
  {
    assert MovedTo(s.io, io, s.wait[f]);
    assert FateHolds(io, s.wait[f]);
    assert Came(s.io, io, i);
  }

  lemma WorksInTime(s: Sys, woken: seq<Woken>)
    requires TasksInTime(s.tasks, s.calls, s.nextCall, s.now)
    ensures TasksInTime(s.tasks + Anywhere(WorksOf(woken)), s.calls, s.nextCall, s.now)
  {
    var more := Anywhere(WorksOf(woken));
    forall i | 0 <= i < |more| ensures !more[i].work.TimeoutWork? {
      assert more[i].work == WorkOf(woken[i].waiter);
    }
  }

  lemma RegisteredKeeps(s: Sys, call: Call)
    requires Inv(s) && !call.Add? && Registered(s, call).Some? && !AllEnded(s.threads)
    ensures Inv(Registered(s, call).value)
  {
    hide Coherent, T.Coherent, DeadlinesFit, NumHolding, NumIdle, UniqueFibers, WaitsOk, ContextsOk, FibersOk,
      ParkedOk, CallsOk, TasksInTime, ThreadsInTime, TimersInTime, PinnedOk, EndedOk, AllEnded;
    hide Moves, Perform;
    PerformMoves(s.io, call);
    var io := Perform(s.io, call).io;
    MovesFate(s.io, io);
    MovedWakes(s, io);
    WorksInTime(s, io.woken[|s.io.woken|..]);
  }

  lemma HandleKeeps(s: Sys, t: nat, fd: nat, m: Mask, hangup: bool, ok: bool)
    requires Inv(s) && t < |s.threads| && s.threads[t].phase.Handling?
    requires Registered(s, Report(fd, m, hangup, ok)).Some?
    ensures Inv(Registered(s, Report(fd, m, hangup, ok)).value)
  {
    hide Inv, Registered, AllEnded;
    BusyNotEnded(s, t);
    RegisteredKeeps(s, Report(fd, m, hangup, ok));
  }

  // ---- registrations that are made -------------------------------------------------------------------

  lemma AddCallbackKeeps(s: Sys, fd: nat, e: Event, c: nat, ok: bool)
    requires Inv(s) && !AllEnded(s.threads) && AddEvent(s.io, fd, e, Callback(c), ok).0.Done?
    ensures Inv(s.(io := AddEvent(s.io, fd, e, Callback(c), ok).0.io))
  {
    hide Coherent, T.Coherent, DeadlinesFit, NumHolding, NumIdle, UniqueFibers, WaitsOk, ContextsOk, FibersOk,
      ParkedOk, CallsOk, TasksInTime, ThreadsInTime, TimersInTime, PinnedOk, EndedOk, AllEnded;
    hide AddEvent;
    AddMoves(s.io, fd, e, Callback(c), ok);
    AddedKeepsWaits(s, AddEvent(s.io, fd, e, Callback(c), ok).0.io, fd, e, ok);
    AddedContexts(s, AddEvent(s.io, fd, e, Callback(c), ok).0.io, fd, e, Callback(c), ok, s.wait);
  }

  lemma AddedKeepsWaits(s: Sys, io: Io, fd: nat, e: Event, ok: bool)
    requires WaitsOk(s.tasks, s.io.fate, s.wait) && io.fate == if ok then s.io.fate + [Waiting(fd, e)] else s.io.fate
    ensures WaitsOk(s.tasks, io.fate, s.wait)
  {}

  /** After adding one registration: wait is the old one, with the new one if a fiber made it. */
  lemma AddedContexts(s: Sys, io: Io, fd: nat, e: Event, w: Waiter, ok: bool, wait: map<nat, nat>)
    requires Coherent(s.io) && Coherent(io) && ContextsOk(s.io, s.wait) && FibersOk(s.io, s.wait) && WaitsOk(s.tasks, s.io.fate, s.wait)
    requires |s.io.fds| <= |io.fds| && io.fate == if ok then s.io.fate + [Waiting(fd, e)] else s.io.fate
    requires forall fd', e' | 0 <= fd' < |io.fds| && CtxAt(io, fd', e').Filled? ::
               || (ok && fd' == fd && e' == e && CtxAt(io, fd, e) == Filled(w, |s.io.fate|))
               || (fd' < |s.io.fds| && CtxAt(io, fd', e') == CtxAt(s.io, fd', e'))
    requires wait == (if ok && w.Fiber? then s.wait[w.id := |s.io.fate|] else s.wait)
    requires w.Fiber? && w.id in s.wait && s.wait[w.id] < |s.io.fate| ==> !s.io.fate[s.wait[w.id]].Waiting?
    ensures ContextsOk(io, wait) && FibersOk(io, wait)
  {
    FilledWaits(s.io);
    forall fd', e' | 0 <= fd' < |io.fds| && CtxAt(io, fd', e').Filled? && CtxAt(io, fd', e').waiter.Fiber?
      ensures CtxAt(io, fd', e').waiter.id in wait && wait[CtxAt(io, fd', e').waiter.id] == CtxAt(io, fd', e').reg
    {}
    forall f | f in wait && wait[f] < |io.fate| && io.fate[wait[f]].Waiting? ensures WaiterOf(io, wait[f]) == Some(Fiber(f)) {
      assert FateHolds(io, wait[f]);
    }
  }

  /** The fiber that runs on t marks its thread and waits for the registration it made. */
  lemma FiberParks(s: Sys, t: nat, f: nat, fate: seq<Fate>)
    requires t < |s.threads| && Runs(s.threads[t].phase, f) && !s.threads[t].phase.parked && !Queued(s.tasks, f)
    requires PinnedOk(s.threads) && EndedOk(s.threads, s.stop) && ParkedOk(s.threads, s.wait)
    requires ThreadsInTime(s.threads, s.calls, s.nextCall, s.now) && WaitsOk(s.tasks, s.io.fate, s.wait)
    requires |fate| == |s.io.fate| + 1 && fate[..|s.io.fate|] == s.io.fate && fate[|s.io.fate|].Waiting?
    ensures var threads := s.threads[t := s.threads[t].(phase := s.threads[t].phase.(parked := true))];
            var wait := s.wait[f := |s.io.fate|];
            && f !in s.wait
            && PinnedOk(threads) && EndedOk(threads, s.stop) && ParkedOk(threads, wait)
            && ThreadsInTime(threads, s.calls, s.nextCall, s.now) && WaitsOk(s.tasks, fate, wait)
            && NumHolding(threads) == NumHolding(s.threads) && NumIdle(threads) == NumIdle(s.threads)
            && (AllEnded(threads) ==> AllEnded(s.threads))
  {
    hide NumHolding, NumIdle, Elapsed;
    var th := s.threads[t].(phase := s.threads[t].phase.(parked := true));
    var threads := s.threads[t := th];
    NumUpdate(s.threads, t, th);
    forall g | g in s.wait ensures s.wait[g] < |fate| && fate[s.wait[g]] == s.io.fate[s.wait[g]] {
      assert fate[..|s.io.fate|][s.wait[g]] == s.io.fate[s.wait[g]];
    }
    forall u, v, g | 0 <= u < |threads| && 0 <= v < |threads| && Runs(threads[u].phase, g) && Runs(threads[v].phase, g)
      ensures u == v
    {
      assert Runs(s.threads[u].phase, g) && Runs(s.threads[v].phase, g);
    }
    forall u, g | 0 <= u < |threads| && Runs(threads[u].phase, g) && g in s.wait[f := |s.io.fate|] ensures threads[u].phase.parked {
      assert Runs(s.threads[u].phase, g);
    }
    if AllEnded(threads) {
      forall u | 0 <= u < |s.threads| ensures s.threads[u].idleEnded { assert threads[u].idleEnded; }
    }
  }

  /** The timer of a wait, and its removal. */
  lemma TimeoutArmed(s: Sys, c: nat, a: nat)
    requires T.Coherent(s.tm) && DeadlinesFit(s.tm.timer) && TimersInTime(s.tm, s.calls, s.nextCall) && CallsOk(s.calls, s.nextCall, s.now)
    requires c in s.calls && a !in s.tm.timer && s.now + s.calls[c].to < T.WORD
    ensures T.Known(s.tm.timer, s.tm.order)
    ensures var tm := T.AddTimer(s.tm, a, s.calls[c].to, 2 * c + 1, false, s.now).0;
            && a in tm.timer && tm.previous == s.tm.previous
            && T.Coherent(tm) && DeadlinesFit(tm.timer) && TimersInTime(tm, s.calls, s.nextCall)
            && var back := T.Cancel(tm, a).0;
               T.Coherent(back) && DeadlinesFit(back.timer) && TimersInTime(back, s.calls, s.nextCall) && back.previous == tm.previous
  {
    hide T.Insert, T.Erase, T.Sorted;
    T.AddTimerKeeps(s.tm, a, s.calls[c].to, 2 * c + 1, false, s.now);
    var tm := T.AddTimer(s.tm, a, s.calls[c].to, 2 * c + 1, false, s.now).0;
    T.CancelKeeps(tm, a);
  }

  lemma ParkKeeps(s: Sys, t: nat, f: nat, c: nat, armed: bool, a: nat, ok: bool)
    requires Inv(s) && t < |s.threads| && Runs(s.threads[t].phase, f) && !s.threads[t].phase.parked
    requires ParkFiber(s, t, f, c, armed, a, ok).Some?
    ensures Inv(ParkFiber(s, t, f, c, armed, a, ok).value)
  {
    hide Coherent, T.Coherent, DeadlinesFit, NumHolding, NumIdle, UniqueFibers, WaitsOk, ContextsOk, FibersOk,
      ParkedOk, CallsOk, TasksInTime, ThreadsInTime, TimersInTime, PinnedOk, EndedOk, AllEnded;
    hide AddEvent, T.AddTimer, T.Cancel;
    var call := s.calls[c];
    BusyNotEnded(s, t);
    TimeoutArmed(s, c, a);
    AddMoves(s.io, call.fd, call.event, Fiber(f), ok);
    AddReturns(s.io, call.fd, call.event, Fiber(f), ok);
    var io := AddEvent(s.io, call.fd, call.event, Fiber(f), ok).0.io;
    FiberParks(s, t, f, s.io.fate + [Waiting(call.fd, call.event)]);
    AddedContexts(s, io, call.fd, call.event, Fiber(f), ok, if ok then s.wait[f := |s.io.fate|] else s.wait);
  }

  lemma AddReturns(io: Io, fd: nat, e: Event, w: Waiter, ok: bool)
    requires Coherent(io) && AddEvent(io, fd, e, w, ok).0.Done?
    ensures AddEvent(io, fd, e, w, ok).1 == if ok then 0 else -1
  {
    AddKeeps(io, fd, e, w, ok);
  }

  // ---- timers and calls ----------------------------------------------------------------------------------

  lemma TimerActKeeps(s: Sys, act: Act)
    requires Inv(s) && !AllEnded(s.threads) && TimerAct(s, act).Some?
    ensures Inv(TimerAct(s, act).value)
  {
    hide Coherent, T.Coherent, DeadlinesFit, NumHolding, NumIdle, UniqueFibers, WaitsOk, ContextsOk, FibersOk,
      ParkedOk, CallsOk, TasksInTime, ThreadsInTime, TimersInTime, PinnedOk, EndedOk, AllEnded;
    hide TimerAct;
    TimerActParts(s, act);
  }

  /** The timers after an operation of a user are as good as before. */
  ghost predicate TimersKept(s: Sys, tm: T.State) {
    tm.previous == s.tm.previous && T.Coherent(tm) && DeadlinesFit(tm.timer) && TimersInTime(tm, s.calls, s.nextCall)
  }

  lemma TimerActParts(s: Sys, act: Act)
    requires T.Coherent(s.tm) && DeadlinesFit(s.tm.timer) && TimersInTime(s.tm, s.calls, s.nextCall) && TimerAct(s, act).Some?
    ensures TimerAct(s, act).value == s.(tm := TimerAct(s, act).value.tm) && TimersKept(s, TimerAct(s, act).value.tm)
  {
    hide T.AddTimer, T.Cancel, T.Refresh, T.Reset, T.Coherent, T.Known, DeadlinesFit, TimersInTime, TimersKept, UsersTimer;
    match act
    case StartTimer(a, ms, c, recurring) => StartParts(s, a, ms, c, recurring);
    case StopTimer(a) => StopParts(s, a);
    case RefreshTimer(a) => RefreshParts(s, a);
    case ResetTimer(a, ms, fromNow) => ResetParts(s, a, ms, fromNow);
    case _ =>
  }

  lemma StartParts(s: Sys, a: nat, ms: nat, c: nat, recurring: bool)
    requires T.Coherent(s.tm) && DeadlinesFit(s.tm.timer) && TimersInTime(s.tm, s.calls, s.nextCall) && a !in s.tm.timer
    ensures T.Known(s.tm.timer, s.tm.order) && TimersKept(s, T.AddTimer(s.tm, a, ms, 2 * c, recurring, s.now).0)
  {
    hide T.Insert, T.Sorted;
    T.AddTimerKeeps(s.tm, a, ms, 2 * c, recurring, s.now);
  }

  lemma StopParts(s: Sys, a: nat)
    requires T.Coherent(s.tm) && DeadlinesFit(s.tm.timer) && TimersInTime(s.tm, s.calls, s.nextCall) && a in s.tm.timer
    ensures TimersKept(s, T.Cancel(s.tm, a).0)
  {
    hide T.Erase, T.Sorted;
    T.CancelKeeps(s.tm, a);
  }

  lemma RefreshParts(s: Sys, a: nat)
    requires T.Coherent(s.tm) && DeadlinesFit(s.tm.timer) && TimersInTime(s.tm, s.calls, s.nextCall) && UsersTimer(s, a)
    ensures TimersKept(s, T.Refresh(s.tm, a, s.now).0)
  {
    hide T.Insert, T.Erase, T.Sorted;
    T.RefreshKeeps(s.tm, a, s.now);
  }

  lemma ResetParts(s: Sys, a: nat, ms: nat, fromNow: bool)
    requires T.Coherent(s.tm) && DeadlinesFit(s.tm.timer) && TimersInTime(s.tm, s.calls, s.nextCall) && UsersTimer(s, a)
    ensures TimersKept(s, T.Reset(s.tm, a, ms, fromNow, s.now).0)
  {
    hide T.Insert, T.Erase, T.Sorted;
    T.ResetKeeps(s.tm, a, ms, fromNow, s.now);
  }

  /** Changing the table of calls: a call begins, ends, or is marked. */
  lemma CallsChange(s: Sys, calls: map<nat, Hooked>, nextCall: nat)
    requires Inv(s) && !AllEnded(s.threads) && s.nextCall <= nextCall && CallsOk(calls, nextCall, s.now)
    requires forall c | c in calls && c < s.nextCall :: c in s.calls && calls[c].since == s.calls[c].since && calls[c].to == s.calls[c].to
    ensures Inv(s.(calls := calls, nextCall := nextCall))
  {
    hide Coherent, T.Coherent, DeadlinesFit, NumHolding, NumIdle, UniqueFibers, WaitsOk, ContextsOk, FibersOk,
      ParkedOk, CallsOk;
    hide PinnedOk, EndedOk, AllEnded;
  }

  lemma BeginCallKeeps(s: Sys, f: nat, fd: nat, e: Event, to: nat)
    requires Inv(s) && !AllEnded(s.threads)
    ensures Inv(s.(calls := s.calls[s.nextCall := Hooked(f, fd, e, s.now, to, false)], nextCall := s.nextCall + 1))
  {
    assert CallsOk(s.calls, s.nextCall, s.now);
    hide Inv, AllEnded;
    CallsChange(s, s.calls[s.nextCall := Hooked(f, fd, e, s.now, to, false)], s.nextCall + 1);
  }

  lemma EndCallKeeps(s: Sys, c: nat)
    requires Inv(s) && !AllEnded(s.threads)
    ensures Inv(s.(calls := s.calls - {c}))
  {
    assert CallsOk(s.calls, s.nextCall, s.now);
    hide Inv, AllEnded;
    CallsChange(s, s.calls - {c}, s.nextCall);
  }

  lemma TimeoutKeeps(s: Sys, t: nat, c: nat, ok: bool)
    requires Inv(s) && t < |s.threads| && s.threads[t].phase.Holding? && s.threads[t].phase.task.work == TimeoutWork(c)
    requires Timeout(s, c, ok).Some?
    ensures Inv(Timeout(s, c, ok).value)
  {
    HeldInTime(s, t, c);
    BusyNotEnded(s, t);
    hide Inv, AllEnded, Registered;
    if c in s.calls && !s.calls[c].cancelled {
      var call := s.calls[c].(cancelled := true);
      CallsChange(s, s.calls[c := call], s.nextCall);
      RegisteredKeeps(s.(calls := s.calls[c := call]), Cancel(call.fd, call.event, ok));
    }
  }

  lemma HeldInTime(s: Sys, t: nat, c: nat)
    requires Inv(s) && t < |s.threads| && s.threads[t].phase.Holding? && s.threads[t].phase.task.work == TimeoutWork(c)
    ensures Elapsed(s.calls, s.nextCall, s.now, TimeoutWork(c)) && CallsOk(s.calls, s.nextCall, s.now)
  {}

  // ---- every step -----------------------------------------------------------------------------------------

  lemma ActKeeps(s: Sys, t: nat, act: Act)
    requires Inv(s) && t < |s.threads| && s.threads[t].phase.Holding? && !s.threads[t].phase.parked
    requires DoAct(s, t, s.threads[t].phase.task.work, act).Some?
    ensures Inv(DoAct(s, t, s.threads[t].phase.task.work, act).value)
  {
    hide Inv, AllEnded, Push, AddEvent, Registered, ParkFiber, Timeout, TimerAct, T.Coherent, EndedOk, T.Known, Next, Queued,
      Unused, MayStop, Move;
    BusyNotEnded(s, t);
    TimersAreCoherent(s);
    var work := s.threads[t].phase.task.work;
    match act
    case Schedule(task) => PushKeeps(s, task);
    case OnFiber(f) => OnFiberKeeps(s, t, f);
    case AddCallback(fd, e, c, ok) => AddCallbackKeeps(s, fd, e, c, ok);
    case Change(call) => RegisteredKeeps(s, call);
    case BeginCall(fd, e, to) => BeginCallKeeps(s, work.f, fd, e, to);
    case Park(c, armed, a, ok) => ParkKeeps(s, t, work.f, c, armed, a, ok);
    case EndCall(c) => EndCallKeeps(s, c);
    case RunTimeout(ok) => TimeoutKeeps(s, t, work.c, ok);
    case _ => TimerActKeeps(s, act);
  }

  /** A callback in a thread's hands gets a fiber. */
  lemma OnFiberKeeps(s: Sys, t: nat, f: nat)
    requires Inv(s) && t < |s.threads| && s.threads[t].phase.Holding? && !AllEnded(s.threads) && Unused(s, f)
    ensures Inv(Move(s, t, Holding(Task(FiberWork(f), s.threads[t].phase.task.thread), false)))
  {
    hide Coherent, T.Coherent, DeadlinesFit, NumHolding, NumIdle, UniqueFibers, WaitsOk, ContextsOk, FibersOk,
      CallsOk, TasksInTime, TimersInTime, ParkedOk, PinnedOk, EndedOk, AllEnded, ThreadsInTime;
    var th := s.threads[t].(phase := Holding(Task(FiberWork(f), s.threads[t].phase.task.thread), false));
    NumUpdate(s.threads, t, th);
    FiberStarts(s, t, f);
  }

  lemma FiberStarts(s: Sys, t: nat, f: nat)
    requires t < |s.threads| && s.threads[t].phase.Holding? && Unused(s, f) && !AllEnded(s.threads)
    requires PinnedOk(s.threads) && EndedOk(s.threads, s.stop) && ParkedOk(s.threads, s.wait)
    requires ThreadsInTime(s.threads, s.calls, s.nextCall, s.now)
    ensures var threads := s.threads[t := s.threads[t].(phase := Holding(Task(FiberWork(f), s.threads[t].phase.task.thread), false))];
            && PinnedOk(threads) && EndedOk(threads, s.stop) && ParkedOk(threads, s.wait)
            && ThreadsInTime(threads, s.calls, s.nextCall, s.now) && !AllEnded(threads)
  {
    hide Queued;
    var threads := s.threads[t := s.threads[t].(phase := Holding(Task(FiberWork(f), s.threads[t].phase.task.thread), false))];
    forall u, v, g | 0 <= u < |threads| && 0 <= v < |threads| && Runs(threads[u].phase, g) && Runs(threads[v].phase, g)
      ensures u == v
    {
      if u != t { assert Runs(s.threads[u].phase, g); }
      if v != t { assert Runs(s.threads[v].phase, g); }
    }
    forall u, g | 0 <= u < |threads| && Runs(threads[u].phase, g) && g in s.wait ensures threads[u].phase.parked {
      if u != t { assert Runs(s.threads[u].phase, g); }
    }
    if AllEnded(threads) {
      forall u | 0 <= u < |s.threads| ensures s.threads[u].idleEnded { assert threads[u].idleEnded; }
    }
  }

  lemma TimersAreCoherent(s: Sys)
    requires Inv(s)
    ensures T.Coherent(s.tm) && T.Known(s.tm.timer, s.tm.order) && EndedOk(s.threads, s.stop)
  {}

  lemma ThreadStepKeeps(s: Sys, t: nat, step: Step)
    requires Inv(s) && t < |s.threads| && T.Coherent(s.tm) && ThreadStep(s, t, step).Some?
    ensures Inv(ThreadStep(s, t, step).value)
  {
    hide Inv, PickTask, RestThread, DoAct, CheckIdle, WakeUp, PostOne, Registered, T.Coherent, Move, EndedOk,
      T.Known, ReportIsCurrent;
    TimersAreCoherent(s);
    match step
    case Pick(_) => PickKeeps(s, t);
    case Rest(_) => RestKeeps(s, t);
    case Do(_, act) => ActKeeps(s, t, act);
    case Finish(_) => FinishKeeps(s, t);
    case Check(_) => CheckKeeps(s, t);
    case Wake(_) => WakeKeeps(s, t);
    case Post(_) => PostKeeps(s, t);
    case Handle(_, fd, m, hangup, ok) => HandleKeeps(s, t, fd, m, hangup, ok);
    case Leave(_) => LeaveKeeps(s, t);
    case _ =>
  }

  lemma NextKeeps(s: Sys, step: Step)
    requires Inv(s) && T.Coherent(s.tm) && Next(s, step).Some?
    ensures Inv(Next(s, step).value)
  {
    hide Inv, ThreadStep, Push, T.Coherent, EndedOk, AllEnded, T.Known;
    TimersAreCoherent(s);
    match step
    case Advance(ms) => AdvanceKeeps(s, ms);
    case Submit(task) =>
      if 0 < |s.threads| { NobodyOutsideAfterStop(s); }
      PushKeeps(s, task);
    case Halt => HaltKeeps(s);
    case _ => ThreadStepKeeps(s, step.t, step);
  }

  /** A run: None if a step was not possible. */
  function RunSteps(s: Sys, steps: seq<Step>): Option<Sys> {
    if steps == [] then Some(s)
    else match RunSteps(s, steps[..|steps| - 1])
      case Some(u) => if T.Coherent(u.tm) then Next(u, steps[|steps| - 1]) else None
      case None => None
  }

  lemma {:induction false} RunKeeps(s: Sys, steps: seq<Step>)
    requires Inv(s) && RunSteps(s, steps).Some?
    ensures Inv(RunSteps(s, steps).value)
  {
    if steps == [] {
    } else {
      hide Inv, Next, T.Coherent;
      RunKeeps(s, steps[..|steps| - 1]);
      NextKeeps(RunSteps(s, steps[..|steps| - 1]).value, steps[|steps| - 1]);
    }
  }

  // ---- what it comes to ------------------------------------------------------------------------------------

  lemma {:induction false} NoBitsLeft(fds: seq<FdContext>)
    requires BitCount(fds) == 0
    ensures forall fd | 0 <= fd < |fds| :: fds[fd].events == NONE
  {
    if fds != [] { NoBitsLeft(fds[..|fds| - 1]); }
  }

  /** Once every thread has left run there is no queued and no running task, no registered event
      and nobody behind one, no armed timer, and no expired callback that was not scheduled; and
      every task ever submitted was completed. */
  lemma CleanShutdown(threads: nat, now: nat, steps: seq<Step>)
    requires 0 < threads && 0 < now && RunSteps(Boot(threads, now), steps).Some?
    ensures var s := RunSteps(Boot(threads, now), steps).value;
            (|s.threads| > 0 && forall t | 0 <= t < |s.threads| :: s.threads[t].phase.Gone?) ==>
              && Quiet(s) && s.completed == s.submitted
              && (forall a | a in s.tm.timer :: s.tm.timer[a].cb.None?)
              && (forall fd, e | 0 <= fd < |s.io.fds| :: !Bit(s.io.fds[fd].events, e) && CtxAt(s.io, fd, e) == Empty)
  {
    BootInv(threads, now);
    RunKeeps(Boot(threads, now), steps);
    hide RunSteps, Boot;
    var s := RunSteps(Boot(threads, now), steps).value;
    if |s.threads| > 0 && forall t | 0 <= t < |s.threads| :: s.threads[t].phase.Gone? {
      GoneMeansQuiet(s);
    }
  }

  lemma GoneMeansQuiet(s: Sys)
    requires Inv(s) && |s.threads| > 0 && forall t | 0 <= t < |s.threads| :: s.threads[t].phase.Gone?
    ensures Quiet(s) && s.completed == s.submitted
    ensures forall a | a in s.tm.timer :: s.tm.timer[a].cb.None?
    ensures forall fd, e | 0 <= fd < |s.io.fds| :: !Bit(s.io.fds[fd].events, e) && CtxAt(s.io, fd, e) == Empty
  {
    hide T.Sorted, NumIdle, NumHolding, WakeOnce, InTime, BitCount, Waits, Schedules;
    NoneHolds(s.threads);
    NoBitsLeft(s.io.fds);
    forall fd, e | 0 <= fd < |s.io.fds| ensures !Bit(s.io.fds[fd].events, e) && CtxAt(s.io, fd, e) == Empty {
      assert BitsMatch(s.io.fds[fd]);
    }
  }

  /** In every reachable state: each task submitted is queued, in one thread's hands or completed;
      the active count is the number of threads with a task; a pinned task is only in the hands of
      its thread. */
  lemma TasksAreConserved(threads: nat, now: nat, steps: seq<Step>)
    requires 0 < now && RunSteps(Boot(threads, now), steps).Some?
    ensures var s := RunSteps(Boot(threads, now), steps).value;
            && s.submitted == |s.tasks| + s.active + s.completed && s.active == NumHolding(s.threads)
            && (forall t | 0 <= t < |s.threads| && s.threads[t].phase.Holding? :: s.threads[t].phase.task.thread in [-1, t])
  {
    BootInv(threads, now);
    RunKeeps(Boot(threads, now), steps);
  }

  /** How often a fiber is in the queue. */
  function Times(tasks: seq<Task>, f: nat): nat {
    if tasks == [] then 0 else Times(tasks[..|tasks| - 1], f) + (if tasks[|tasks| - 1].work == FiberWork(f) then 1 else 0)
  }

  lemma {:induction false} TimesQueued(tasks: seq<Task>, f: nat)
    requires UniqueFibers(tasks)
    ensures Times(tasks, f) == if Queued(tasks, f) then 1 else 0
  {
    if tasks != [] {
      var n := |tasks| - 1;
      TimesQueued(tasks[..n], f);
      if Queued(tasks, f) && tasks[n].work != FiberWork(f) {
        var i :| 0 <= i < |tasks| && tasks[i].work == FiberWork(f);
        assert tasks[..n][i].work == FiberWork(f);
      }
      if Queued(tasks[..n], f) {
        var i :| 0 <= i < n && tasks[..n][i].work == FiberWork(f);
        assert tasks[i].work == FiberWork(f);
      }
    }
  }

  /** One wake for one wait, however readiness, timeout and close race: in every reachable state a
      waiting fiber is in the queue once if its registration was scheduled, and otherwise not at
      all, and then it is still the waiter of the registered event, or the event was deleted. */
  lemma OneWakePerWait(threads: nat, now: nat, steps: seq<Step>, f: nat)
    requires 0 < now && RunSteps(Boot(threads, now), steps).Some?
    requires f in RunSteps(Boot(threads, now), steps).value.wait
    ensures var s := RunSteps(Boot(threads, now), steps).value;
            && s.wait[f] < |s.io.fate|
            && match s.io.fate[s.wait[f]]
               case Scheduled(_) => Times(s.tasks, f) == 1
               case Waiting(fd, e) => Times(s.tasks, f) == 0 && fd < |s.io.fds| && CtxAt(s.io, fd, e) == Filled(Fiber(f), s.wait[f])
               case Dropped => Times(s.tasks, f) == 0
  {
    BootInv(threads, now);
    RunKeeps(Boot(threads, now), steps);
    hide RunSteps, Boot;
    var s := RunSteps(Boot(threads, now), steps).value;
    WaitIsWoken(s, f);
  }

  lemma WaitIsWoken(s: Sys, f: nat)
    requires Inv(s) && f in s.wait
    ensures && s.wait[f] < |s.io.fate|
            && match s.io.fate[s.wait[f]]
               case Scheduled(_) => Times(s.tasks, f) == 1
               case Waiting(fd, e) => Times(s.tasks, f) == 0 && fd < |s.io.fds| && CtxAt(s.io, fd, e) == Filled(Fiber(f), s.wait[f])
               case Dropped => Times(s.tasks, f) == 0
  {
    TimesQueued(s.tasks, f);
    assert s.io.fate[s.wait[f]].Waiting? ==> FateHolds(s.io, s.wait[f]);
    assert s.io.fate[s.wait[f]].Waiting? ==> WaiterOf(s.io, s.wait[f]) == Some(Fiber(f));
  }

  /** A hooked call is marked as timed out only when its timeout has passed since it began. */
  lemma NoEarlyTimeout(threads: nat, now: nat, steps: seq<Step>, c: nat)
    requires 0 < now && RunSteps(Boot(threads, now), steps).Some?
    requires c in RunSteps(Boot(threads, now), steps).value.calls
    ensures var s := RunSteps(Boot(threads, now), steps).value;
            s.calls[c].cancelled ==> s.calls[c].since + s.calls[c].to <= s.now
  {
    BootInv(threads, now);
    RunKeeps(Boot(threads, now), steps);
  }

  // ---- stopping ---------------------------------------------------------------------------------------------

  /** Once stopping is true it stays true through every step but one: a thread in idle that
      schedules a callback which expired before. */
  lemma StoppingIsStable(s: Sys, step: Step)
    requires Inv(s) && T.Coherent(s.tm) && Stopping(s) && Next(s, step).Some?
    ensures var u := Next(s, step).value;
            T.Known(u.tm.timer, u.tm.order)
            && (Stopping(u) <==> !(step.Post? && step.t < |s.threads| && s.threads[step.t].phase.Posting?
                                   && s.threads[step.t].phase.works != []))
  {
    hide Coherent, Accounted, T.Sorted, Counts, WakeOnce, InTime, PinnedOk, EndedOk, NumHolding, NumIdle;
    StoppingMeansNoTimer(s);
    NothingHeld(s);
    match step
    case Handle(t, fd, m, hangup, ok) =>
      if fd < |s.io.fds| { NothingToHandle(s, fd, m, hangup, ok); }
    case _ =>
  }

  lemma NothingHeld(s: Sys)
    requires Inv(s) && s.active == 0
    ensures forall t | 0 <= t < |s.threads| :: !s.threads[t].phase.Holding?
  {
    NoneHolds(s.threads);
  }

  lemma NothingToHandle(s: Sys, fd: nat, m: Mask, hangup: bool, ok: bool)
    requires Coherent(s.io) && s.io.pending == 0 && fd < |s.io.fds|
    ensures Registered(s, Report(fd, m, hangup, ok)) == Some(s)
  {
    NoBitsLeft(s.io.fds);
    hide Coherent, BitCount;
    assert s.io.woken[|s.io.woken|..] == [];
    assert s.tasks + [] == s.tasks;
  }

  /** With two threads at work a task arms a timer that is due at once; both threads go idle, one
      collects the callback, and the scheduler is stopped before it is scheduled. */
  const TO_STOPPING: seq<Step> := [
    Submit(Task(CbWork(0), -1)), Pick(1), Do(1, StartTimer(0, 0, 7, false)), Finish(1), Rest(1), Check(1), Rest(0), Wake(1), Halt]

  /** The state after each of these steps. */
  function Early(now: nat, k: nat): Sys {
    var b, r, top := Boot(2, now), Thread(Ready, false), Thread(Top, false);
    var held := Thread(Holding(Task(CbWork(0), -1), false), false);
    var armed := T.State(map[0 := T.Timer(T.Later(now, 0), 0, false, Some(14))], [0], true, now);
    var spent := T.State(map[0 := T.Timer(T.Later(now, 0), 0, false, None)], [], false, now);
    if k == 0 then b
    else if k == 1 then b.(tasks := [Task(CbWork(0), -1)], submitted := 1)
    else if k == 2 then b.(threads := [r, held], active := 1, submitted := 1)
    else if k == 3 then b.(threads := [r, held], active := 1, submitted := 1, tm := armed)
    else if k == 4 then b.(threads := [r, r], submitted := 1, completed := 1, tm := armed)
    else if k == 5 then b.(threads := [r, top], idle := 1, submitted := 1, completed := 1, tm := armed)
    else if k == 6 then
      b.(threads := [r, Thread(Polling, false)], idle := 1, submitted := 1, completed := 1, tm := armed.(tickled := false))
    else if k == 7 then
      b.(threads := [top, Thread(Polling, false)], idle := 2, submitted := 1, completed := 1, tm := armed.(tickled := false))
    else
      b.(threads := [top, Thread(Posting([CbWork(7)]), false)], idle := 2, submitted := 1, completed := 1, tm := spent, stop := k > 8)
  }

  lemma EarlyTwo(now: nat, k: nat)
    ensures |Early(now, k).threads| == 2 && T.Coherent(Early(now, k).tm)
  {}

  lemma StepOne(now: nat)
    ensures Next(Early(now, 0), TO_STOPPING[0]) == Some(Early(now, 1))
  {
    assert Early(now, 0).tasks + [Task(CbWork(0), -1)] == [Task(CbWork(0), -1)];
  }

  lemma StepTwo(now: nat)
    ensures Next(Early(now, 1), TO_STOPPING[1]) == Some(Early(now, 2))
  {
    var s := Early(now, 1);
    assert Eligible(s, 1, s.tasks[0]) && Search(s, 1, 0) == 0;
    assert s.tasks[..0] + s.tasks[1..] == [];
    assert s.threads[1 := Thread(Holding(Task(CbWork(0), -1), false), false)] == Early(now, 2).threads;
  }

  lemma StepThree(now: nat)
    ensures Next(Early(now, 2), TO_STOPPING[2]) == Some(Early(now, 3))
  {
    var s := Early(now, 2);
    var t := T.Timer(T.Later(now, 0), 0, false, Some(14));
    assert s.tm.timer[0 := t] == map[0 := t] && T.Insert(map[0 := t], [], 0) == [0];
    assert T.PutIn(s.tm, 0, t).0 == Early(now, 3).tm;
  }

  lemma MiddleSteps(now: nat, k: nat)
    requires 3 <= k < 7
    ensures Next(Early(now, k), TO_STOPPING[k]) == Some(Early(now, k + 1))
  {
    var s, u := Early(now, k), Early(now, k + 1);
    if k == 6 { assert s.threads[0 := u.threads[0]] == u.threads; } else { assert s.threads[1 := u.threads[1]] == u.threads; }
  }

  lemma StepEight(now: nat)
    ensures Next(Early(now, 7), TO_STOPPING[7]) == Some(Early(now, 8))
  {
    var s := Early(now, 7);
    var t := s.tm.timer[0];
    assert T.Known(s.tm.timer, [0]) && T.Due(s.tm.timer, [0], now) == 1;
    assert [0][..1] == [0] && [0][1..] == [];
    assert s.tm.timer[0 := T.Spent(t, now)] == map[0 := t.(cb := None)];
    assert T.FireAll(s.tm.timer, [], [0], now) == (map[0 := t.(cb := None)], []);
    assert T.Callbacks(s.tm.timer, [0]) == [Some(14)];
    assert TimerWorks([Some(14)]) == [CbWork(7)] by { assert [Some(14)][..0] == [] && TimerWorks([]) == []; }
    assert s.threads[1 := Thread(Posting([CbWork(7)]), false)] == Early(now, 8).threads;
  }

  lemma StepNine(now: nat)
    ensures Next(Early(now, 8), TO_STOPPING[8]) == Some(Early(now, 9))
  {}

  lemma EarlyStep(now: nat, k: nat)
    requires k < 9
    ensures T.Coherent(Early(now, k).tm) && Next(Early(now, k), TO_STOPPING[k]) == Some(Early(now, k + 1))
  {
    hide Next, T.Coherent, Early;
    EarlyTwo(now, k);
    if k == 0 { StepOne(now); }
    else if k == 1 { StepTwo(now); }
    else if k == 2 { StepThree(now); }
    else if k < 7 { MiddleSteps(now, k); }
    else if k == 7 { StepEight(now); }
    else { StepNine(now); }
  }

  lemma {:induction false} EarlyRun(now: nat, k: nat)
    requires k <= 9
    ensures RunSteps(Boot(2, now), TO_STOPPING[..k]) == Some(Early(now, k))
  {
    hide Next, T.Coherent;
    if k > 0 {
      EarlyRun(now, k - 1);
      assert TO_STOPPING[..k][..k - 1] == TO_STOPPING[..k - 1] && TO_STOPPING[..k][k - 1] == TO_STOPPING[k - 1];
      EarlyTwo(now, k - 1);
      EarlyStep(now, k - 1);
    }
  }

  /** stopping is true in a state that the system reaches, and false again one step later. */
  lemma StoppingIsNotStable(now: nat)
    requires 0 < now
    ensures RunSteps(Boot(2, now), TO_STOPPING) == Some(Early(now, 9)) && Inv(Early(now, 9))
    ensures var s := Early(now, 9);
            && T.Coherent(s.tm) && Stopping(s) && Next(s, Post(1)).Some?
            && T.Coherent(Next(s, Post(1)).value.tm) && !Stopping(Next(s, Post(1)).value)
  {
    EarlyRun(now, 9);
    assert TO_STOPPING[..9] == TO_STOPPING;
    EarlyEnd(now);
    hide Inv, RunSteps, Next, Stopping, Early;
    BootInv(2, now);
    RunKeeps(Boot(2, now), TO_STOPPING);
  }

  lemma EarlyEnd(now: nat)
    ensures var s := Early(now, 9);
            && T.Coherent(s.tm) && Stopping(s) && Next(s, Post(1)).Some?
            && T.Coherent(Next(s, Post(1)).value.tm) && !Stopping(Next(s, Post(1)).value)
  {}
}
