/** What becomes of the timeout of a waiting call: as long as the call is not marked, its callback is
    armed or on its way, and wakes the fiber when it runs; once the mark is set no callback of this
    call does anything, and a later wait of the same call has no timeout any more. */
module ProtocolTimeouts {
  import opened Options
  import opened IoEvents
  import opened IoMoves
  import opened Protocol
  import opened ProtocolSafety
  import T = Timers

  // ---- where a timeout can be --------------------------------------------------------------------

  /** Timers.Coherent: a timer that has its callback is in the set. */
  ghost predicate Armed(timer: map<nat, T.Timer>, c: nat) {
    exists a | a in timer :: timer[a].cb == Some(2 * c + 1)
  }

  ghost predicate InQueue(tasks: seq<Task>, w: Work) { exists i | 0 <= i < |tasks| :: tasks[i].work == w }

  /** In a thread's hands, or collected and not in the queue yet. */
  predicate Carries(p: Phase, w: Work) { (p.Holding? && p.task.work == w) || (p.Posting? && w in p.works) }

  ghost predicate Carried(threads: seq<Thread>, w: Work) { exists t | 0 <= t < |threads| :: Carries(threads[t].phase, w) }

  ghost predicate Coming(s: Sys, c: nat) {
    Armed(s.tm.timer, c) || InQueue(s.tasks, TimeoutWork(c)) || Carried(s.threads, TimeoutWork(c))
  }

  /** Fiber f is in a wait with a timeout of call c: the call is its own, the registration is for
      the call's event, and unless the call is marked its timeout is still to come. */
  ghost predicate TimedWait(s: Sys, f: nat, c: nat) {
    && f in s.wait && c in s.calls && s.calls[c].fiber == f
    && s.wait[f] < |s.io.fate|
    && (s.io.fate[s.wait[f]].Waiting? ==> s.io.fate[s.wait[f]] == Waiting(s.calls[c].fd, s.calls[c].event))
    && (!s.calls[c].cancelled ==> Coming(s, c))
  }

  ghost predicate TimedOk(s: Sys) { forall f | f in s.timed :: TimedWait(s, f, s.timed[f]) }

  // ---- it stays on its way -------------------------------------------------------------------------

  lemma QueueGrows(s: Sys, u: Sys, c: nat, more: seq<Task>)
    requires Coming(s, c) && u.tm.timer == s.tm.timer && u.threads == s.threads && u.tasks == s.tasks + more
    ensures Coming(u, c)
  {
    if InQueue(s.tasks, TimeoutWork(c)) {
      var i :| 0 <= i < |s.tasks| && s.tasks[i].work == TimeoutWork(c);
      assert u.tasks[i].work == TimeoutWork(c);
    }
  }

  /** Thread t changes; what it carried is carried on or is in the queue now. */
  lemma ThreadChanges(s: Sys, u: Sys, t: nat, c: nat)
    requires Coming(s, c) && t < |s.threads| == |u.threads| && forall v | 0 <= v < |s.threads| && v != t :: u.threads[v] == s.threads[v]
    requires Armed(s.tm.timer, c) ==> Armed(u.tm.timer, c) || Carries(u.threads[t].phase, TimeoutWork(c))
    requires InQueue(s.tasks, TimeoutWork(c)) ==> InQueue(u.tasks, TimeoutWork(c)) || Carries(u.threads[t].phase, TimeoutWork(c))
    requires Carries(s.threads[t].phase, TimeoutWork(c)) ==>
               InQueue(u.tasks, TimeoutWork(c)) || Carries(u.threads[t].phase, TimeoutWork(c))
    ensures Coming(u, c)
  {
    if Carried(s.threads, TimeoutWork(c)) {
      var v :| 0 <= v < |s.threads| && Carries(s.threads[v].phase, TimeoutWork(c));
      if v != t { assert Carries(u.threads[v].phase, TimeoutWork(c)); }
    }
  }

  lemma TimersChange(s: Sys, u: Sys, c: nat)
    requires Coming(s, c) && u.tasks == s.tasks && u.threads == s.threads
    requires Armed(s.tm.timer, c) ==> Armed(u.tm.timer, c)
    ensures Coming(u, c)
  {}

  lemma PickComing(s: Sys, t: nat, c: nat)
    requires Coming(s, c) && t < |s.threads| && s.threads[t].phase.Ready? && PickTask(s, t).Some?
    ensures Coming(PickTask(s, t).value, c)
  {
    hide Search;
    var u := PickTask(s, t).value;
    var i := Search(s, t, 0);
    if InQueue(s.tasks, TimeoutWork(c)) {
      var j :| 0 <= j < |s.tasks| && s.tasks[j].work == TimeoutWork(c);
      if j != i { assert u.tasks[if j < i then j else j - 1].work == TimeoutWork(c); }
    }
    ThreadChanges(s, u, t, c);
  }

  lemma PostComing(s: Sys, t: nat, c: nat)
    requires Coming(s, c) && t < |s.threads| && s.threads[t].phase.Posting?
    ensures Coming(PostOne(s, t), c)
  {
    var works := s.threads[t].phase.works;
    var u := PostOne(s, t);
    if works != [] {
      assert Anywhere([works[0]])[0] == Task(works[0], -1);
      assert u.tasks[|s.tasks|].work == works[0];
    }
    if InQueue(s.tasks, TimeoutWork(c)) {
      var i :| 0 <= i < |s.tasks| && s.tasks[i].work == TimeoutWork(c);
      assert u.tasks[i].work == TimeoutWork(c);
    }
    ThreadChanges(s, u, t, c);
  }

  lemma {:induction false} WorkOfTimer(cbs: seq<Option<nat>>, i: nat)
    requires i < |cbs| && cbs[i].Some?
    ensures TimerWork(cbs[i].value) in TimerWorks(cbs)
  {
    if i < |cbs| - 1 { WorkOfTimer(cbs[..|cbs| - 1], i); }
  }

  /** A timer expires or stays as it is. */
  lemma Expires(s: T.State, now: nat, a: nat)
    requires T.Coherent(s) && s.previous <= now && a in s.timer && s.timer[a].cb.Some?
    ensures var (tm, cbs) := T.ListExpired(s, now);
            if s.timer[a].next <= now then s.timer[a].cb in cbs else a in tm.timer && tm.timer[a] == s.timer[a]
  {
    hide T.ListExpired, T.Due, T.Sorted;
    T.ExpiryIsExact(s, now);
    var k := T.Due(s.timer, s.order, now);
    if s.timer[a].next <= now {
      var i :| 0 <= i < k && s.order[..k][i] == a;
      assert T.ListExpired(s, now).1[i] == s.timer[a].cb;
    }
  }

  /** A timer that expires is collected. */
  lemma ExpiredComing(s: T.State, now: nat, c: nat)
    requires T.Coherent(s) && T.Known(s.timer, s.order) && s.previous <= now && Armed(s.timer, c)
    ensures var (tm, cbs) := T.ListExpired(s, now);
            Armed(tm.timer, c) || TimeoutWork(c) in TimerWorks(cbs)
  {
    hide T.ListExpired, T.Coherent, T.Known;
    var a :| a in s.timer && s.timer[a].cb == Some(2 * c + 1);
    Expires(s, now, a);
    var cbs := T.ListExpired(s, now).1;
    if s.timer[a].next <= now {
      var i :| 0 <= i < |cbs| && cbs[i] == Some(2 * c + 1);
      WorkOfTimer(cbs, i);
    }
  }

  lemma WakeComing(s: Sys, t: nat, c: nat)
    requires T.Coherent(s.tm) && T.Known(s.tm.timer, s.tm.order) && s.tm.previous <= s.now
    requires Coming(s, c) && t < |s.threads| && s.threads[t].phase.Polling?
    ensures Coming(WakeUp(s, t), c)
  {
    hide T.ListExpired, T.Coherent, Armed, T.Known;
    if Armed(s.tm.timer, c) { ExpiredComing(s.tm, s.now, c); }
    ThreadChanges(s, WakeUp(s, t), t, c);
  }

  // ---- what a running task does to it --------------------------------------------------------------

  lemma StartedComing(s: Sys, a: nat, ms: nat, cb: nat, recurring: bool, c: nat)
    requires T.Known(s.tm.timer, s.tm.order) && a !in s.tm.timer && Coming(s, c)
    ensures Coming(s.(tm := T.AddTimer(s.tm, a, ms, cb, recurring, s.now).0), c)
  {
    hide T.Insert;
    var u := s.(tm := T.AddTimer(s.tm, a, ms, cb, recurring, s.now).0);
    if Armed(s.tm.timer, c) {
      var b :| b in s.tm.timer && s.tm.timer[b].cb == Some(2 * c + 1);
      assert u.tm.timer[b].cb == Some(2 * c + 1);
    }
    TimersChange(s, u, c);
  }

  /** An operation on timer a, which is not a timeout of c. */
  lemma OtherTimer(s: Sys, u: Sys, a: nat, c: nat)
    requires Coming(s, c) && u.tasks == s.tasks && u.threads == s.threads && a in s.tm.timer && s.tm.timer[a].cb != Some(2 * c + 1)
    requires forall b | b in s.tm.timer && b != a :: b in u.tm.timer && u.tm.timer[b] == s.tm.timer[b]
    ensures Coming(u, c)
  {
    if Armed(s.tm.timer, c) {
      var b :| b in s.tm.timer && s.tm.timer[b].cb == Some(2 * c + 1);
      assert u.tm.timer[b].cb == Some(2 * c + 1);
    }
  }

  lemma TimerActComing(s: Sys, work: Work, act: Act, c: nat)
    requires T.Coherent(s.tm) && TimerAct(s, act).Some? && Coming(s, c)
    requires act.StopTimer? ==> MayStop(s, work, act.a)
    requires work.FiberWork? && c in s.calls ==> s.calls[c].fiber != work.f
    ensures Coming(TimerAct(s, act).value, c) || c !in s.calls
  {
    hide T.Insert, T.Erase, T.Sorted, Coming;
    match act
    case StartTimer(a, ms, cb, recurring) => StartedComing(s, a, ms, 2 * cb, recurring, c);
    case StopTimer(a) => if c in s.calls { OtherTimer(s, TimerAct(s, act).value, a, c); }
    case RefreshTimer(a) => OtherTimer(s, TimerAct(s, act).value, a, c);
    case ResetTimer(a, ms, fromNow) => OtherTimer(s, TimerAct(s, act).value, a, c);
    case _ =>
  }

  // ---- the wait of a fiber through one step -----------------------------------------------------------

  /** A fiber that waits does nothing. */
  lemma WaitingIsIdle(s: Sys, t: nat, f: nat)
    requires Inv(s) && t < |s.threads| && s.threads[t].phase.Holding? && !s.threads[t].phase.parked && f in s.wait
    ensures !Runs(s.threads[t].phase, f)
  {
    hide Parts, Counts, PinnedOk, EndedOk, InTime, UniqueFibers, WaitsOk, ContextsOk, FibersOk;
  }

  lemma MovedTimedWait(s: Sys, call: Call, f: nat, c: nat)
    requires Coherent(s.io) && !call.Add? && Registered(s, call).Some? && TimedWait(s, f, c)
    ensures TimedWait(Registered(s, call).value, f, c)
  {
    hide Coherent, Moves, Perform, Coming;
    PerformMoves(s.io, call);
    var u := Registered(s, call).value;
    MovesFate(s.io, u.io);
    FateMoves(s.io, u.io, s.wait[f]);
    if Coming(s, c) { QueueGrows(s, u, c, Anywhere(WorksOf(u.io.woken[|s.io.woken|..]))); }
  }

  lemma AddedTimedWait(s: Sys, io: Io, f: nat, c: nat)
    requires TimedWait(s, f, c) && s.io.fate <= io.fate
    ensures TimedWait(s.(io := io), f, c)
  {
    hide Coming;
    if Coming(s, c) { QueueGrows(s, s.(io := io), c, []); }
  }

  /** Another fiber's wait goes on while fiber g begins one. */
  lemma ParkTimedWait(s: Sys, t: nat, g: nat, d: nat, armed: bool, a: nat, ok: bool, f: nat, c: nat)
    requires Inv(s) && T.Coherent(s.tm) && t < |s.threads| && Runs(s.threads[t].phase, g) && !s.threads[t].phase.parked
    requires ParkFiber(s, t, g, d, armed, a, ok).Some? && TimedWait(s, f, c)
    ensures TimedWait(ParkFiber(s, t, g, d, armed, a, ok).value, f, c)
  {
    hide Inv, T.Insert, T.Erase, T.Sorted, AddEvent, Coming;
    WaitingIsIdle(s, t, f);
    var call := s.calls[d];
    AddFate(s, call.fd, call.event, Fiber(g), ok);
    var u := ParkFiber(s, t, g, d, armed, a, ok).value;
    if Coming(s, c) {
      var mid := s.(tm := T.AddTimer(s.tm, a, call.to, 2 * d + 1, false, s.now).0);
      if armed { StartedComing(s, a, call.to, 2 * d + 1, false, c); }
      if u.threads == s.threads {
        if armed { Retaken(s, mid, u, a, c); } else { TimersChange(s, u, c); }
      } else {
        ParkedComing(if armed then mid else s, u, t, c);
      }
    }
  }

  lemma AddFate(s: Sys, fd: nat, e: Event, w: Waiter, ok: bool)
    requires Inv(s) && AddEvent(s.io, fd, e, w, ok).0.Done?
    ensures AddEvent(s.io, fd, e, w, ok).0.io.fate == if ok then s.io.fate + [Waiting(fd, e)] else s.io.fate
    ensures AddEvent(s.io, fd, e, w, ok).1 == if ok then 0 else -1
  {
    hide AddEvent, T.Coherent, DeadlinesFit, Counts, WakeOnce, InTime, PinnedOk, EndedOk;
    AddMoves(s.io, fd, e, w, ok);
    AddReturns(s.io, fd, e, w, ok);
  }

  /** The timer that was put in is taken out again. */
  lemma Retaken(s: Sys, mid: Sys, u: Sys, a: nat, c: nat)
    requires Coming(s, c) && a !in s.tm.timer && a in mid.tm.timer && u.tasks == s.tasks && u.threads == s.threads
    requires forall b | b in s.tm.timer :: b in mid.tm.timer && mid.tm.timer[b] == s.tm.timer[b]
    requires u.tm == T.Cancel(mid.tm, a).0
    ensures Coming(u, c)
  {
    if Armed(s.tm.timer, c) {
      var b :| b in s.tm.timer && s.tm.timer[b].cb == Some(2 * c + 1);
      assert u.tm.timer[b].cb == Some(2 * c + 1);
    }
  }

  lemma ParkedComing(s: Sys, u: Sys, t: nat, c: nat)
    requires Coming(s, c) && u.tasks == s.tasks && u.tm == s.tm && t < |s.threads| && s.threads[t].phase.Holding?
    requires u.threads == s.threads[t := s.threads[t].(phase := s.threads[t].phase.(parked := true))]
    ensures Coming(u, c)
  {
    ThreadChanges(s, u, t, c);
  }

  /** The wait that begins. */
  lemma ParkBegins(s: Sys, t: nat, f: nat, c: nat, a: nat)
    requires Inv(s) && T.Coherent(s.tm) && t < |s.threads| && s.threads[t].phase.Holding?
    requires ParkFiber(s, t, f, c, true, a, true).Some?
    ensures TimedWait(ParkFiber(s, t, f, c, true, a, true).value, f, c)
  {
    hide Inv, T.Insert, T.Sorted, AddEvent;
    AddFate(s, s.calls[c].fd, s.calls[c].event, Fiber(f), true);
    var u := ParkFiber(s, t, f, c, true, a, true).value;
    assert u.tm.timer[a].cb == Some(2 * c + 1);
  }

  lemma SameWait(s: Sys, u: Sys, f: nat, c: nat)
    requires TimedWait(s, f, c) && u.wait == s.wait && u.io == s.io && c in u.calls && u.calls[c] == s.calls[c]
    requires Coming(s, c) ==> Coming(u, c)
    ensures TimedWait(u, f, c)
  {}

  lemma MarkedTimedWait(s: Sys, d: nat, ok: bool, f: nat, c: nat)
    requires Coherent(s.io) && TimedWait(s, f, c) && Timeout(s, d, ok).Some?
    ensures TimedWait(Timeout(s, d, ok).value, f, c)
  {
    hide Coherent, Registered;
    if d in s.calls && !s.calls[d].cancelled {
      var call := s.calls[d];
      MovedTimedWait(s.(calls := s.calls[d := call.(cancelled := true)]), Cancel(call.fd, call.event, ok), f, c);
    }
  }

  lemma FiberTimedWait(s: Sys, t: nat, g: nat, f: nat, c: nat)
    requires t < |s.threads| && s.threads[t].phase.Holding? && s.threads[t].phase.task.work.CbWork? && TimedWait(s, f, c)
    ensures TimedWait(Move(s, t, Holding(Task(FiberWork(g), s.threads[t].phase.task.thread), false)), f, c)
  {
    hide Armed;
    var u := Move(s, t, Holding(Task(FiberWork(g), s.threads[t].phase.task.thread), false));
    if Coming(s, c) { ThreadChanges(s, u, t, c); }
    SameWait(s, u, f, c);
  }

  lemma PushTimedWait(s: Sys, task: Task, f: nat, c: nat)
    requires Push(s, task).Some? && TimedWait(s, f, c)
    ensures TimedWait(Push(s, task).value, f, c)
  {
    hide Coming, Queued;
    var u := Push(s, task).value;
    if Coming(s, c) { QueueGrows(s, u, c, [task]); }
    SameWait(s, u, f, c);
  }

  lemma CallIsOld(s: Sys, f: nat, c: nat)
    requires Inv(s) && TimedWait(s, f, c)
    ensures c in s.calls && s.calls[c].fiber == f && c < s.nextCall && Coherent(s.io)
  {}

  /** A task of another fiber, or a callback, does something while f waits. */
  lemma ActTimed(s: Sys, t: nat, act: Act, f: nat, c: nat)
    requires Inv(s) && T.Coherent(s.tm) && t < |s.threads| && s.threads[t].phase.Holding? && !s.threads[t].phase.parked
    requires DoAct(s, t, s.threads[t].phase.task.work, act).Some? && TimedWait(s, f, c)
    ensures TimedWait(DoAct(s, t, s.threads[t].phase.task.work, act).value, f, c)
  {
    hide Inv, Push, AddEvent, Registered, ParkFiber, Timeout, TimerAct, T.Coherent, Unused, MayStop, Move, Coming, Coherent,
      T.Known;
    WaitingIsIdle(s, t, f);
    CallIsOld(s, f, c);
    var work := s.threads[t].phase.task.work;
    match act
    case Schedule(task) => PushTimedWait(s, task, f, c);
    case OnFiber(g) => FiberTimedWait(s, t, g, f, c);
    case AddCallback(fd, e, n, ok) =>
      AddFate(s, fd, e, Callback(n), ok);
      AddedTimedWait(s, AddEvent(s.io, fd, e, Callback(n), ok).0.io, f, c);
    case Change(call) => MovedTimedWait(s, call, f, c);
    case BeginCall(fd, e, to) => CallsTimedWait(s, DoAct(s, t, work, act).value, f, c);
    case Park(d, armed, a, ok) => ParkTimedWait(s, t, work.f, d, armed, a, ok, f, c);
    case EndCall(d) => CallsTimedWait(s, DoAct(s, t, work, act).value, f, c);
    case RunTimeout(ok) => MarkedTimedWait(s, work.c, ok, f, c);
    case _ => TimersTimedWait(s, work, act, f, c);
  }

  lemma CallsTimedWait(s: Sys, u: Sys, f: nat, c: nat)
    requires TimedWait(s, f, c) && u == s.(calls := u.calls, nextCall := u.nextCall) && c in u.calls && u.calls[c] == s.calls[c]
    ensures TimedWait(u, f, c)
  {
    hide Armed, InQueue, Carried;
  }

  lemma TimersTimedWait(s: Sys, work: Work, act: Act, f: nat, c: nat)
    requires T.Coherent(s.tm) && TimerAct(s, act).Some? && TimedWait(s, f, c) && work != FiberWork(f)
    requires act.StopTimer? ==> MayStop(s, work, act.a)
    ensures TimedWait(TimerAct(s, act).value, f, c)
  {
    hide Coming, MayStop, T.Coherent;
    if Coming(s, c) { TimerActComing(s, work, act, c); }
    TimersAlone(s, act);
    SameWait(s, TimerAct(s, act).value, f, c);
  }

  lemma TimersAlone(s: Sys, act: Act)
    requires T.Coherent(s.tm) && TimerAct(s, act).Some?
    ensures var u := TimerAct(s, act).value; u == s.(tm := u.tm)
  {
    hide T.AddTimer, T.Cancel, T.Refresh, T.Reset, UsersTimer;
  }

  lemma PickTimed(s: Sys, t: nat, f: nat, c: nat)
    requires TimedWait(s, f, c) && t < |s.threads| && s.threads[t].phase.Ready? && PickTask(s, t).Some?
    requires f in PickTask(s, t).value.timed
    ensures TimedWait(PickTask(s, t).value, f, c)
  {
    hide Coming, Search;
    if Coming(s, c) { PickComing(s, t, c); }
  }

  lemma WakeTimed(s: Sys, t: nat, f: nat, c: nat)
    requires T.Coherent(s.tm) && T.Known(s.tm.timer, s.tm.order) && s.tm.previous <= s.now
    requires TimedWait(s, f, c) && t < |s.threads| && s.threads[t].phase.Polling?
    ensures TimedWait(WakeUp(s, t), f, c)
  {
    hide Coming, T.Coherent, T.Known, T.ListExpired, TimerWorks;
    if Coming(s, c) { WakeComing(s, t, c); }
  }

  lemma PostTimed(s: Sys, t: nat, f: nat, c: nat)
    requires TimedWait(s, f, c) && t < |s.threads| && s.threads[t].phase.Posting?
    ensures TimedWait(PostOne(s, t), f, c)
  {
    hide Coming, Anywhere;
    if Coming(s, c) { PostComing(s, t, c); }
  }

  /** A step of another kind. */
  lemma ThreadTimed(s: Sys, t: nat, step: Step, f: nat, c: nat)
    requires Inv(s) && T.Coherent(s.tm) && t < |s.threads| && ThreadStep(s, t, step).Some?
    requires TimedWait(s, f, c) && f in ThreadStep(s, t, step).value.timed && !step.Do?
    ensures TimedWait(ThreadStep(s, t, step).value, f, c)
  {
    hide Inv, Registered, T.Coherent, Armed, InQueue, Carried, Coherent, Stopping, T.Known, Search, ReportIsCurrent, TimedWait,
      PickTask, WakeUp, PostOne;
    CallIsOld(s, f, c);
    TimersAreCoherent(s);
    ClockIsAhead(s);
    match step
    case Pick(_) => PickTimed(s, t, f, c);
    case Wake(_) => WakeTimed(s, t, f, c);
    case Post(_) => PostTimed(s, t, f, c);
    case Handle(_, fd, m, hangup, ok) => MovedTimedWait(s, Report(fd, m, hangup, ok), f, c);
    case Rest(_) => MovesOn(s, ThreadStep(s, t, step).value, t, f, c);
    case Finish(_) => MovesOn(s, ThreadStep(s, t, step).value, t, f, c);
    case Check(_) => MovesOn(s, ThreadStep(s, t, step).value, t, f, c);
    case Leave(_) => MovesOn(s, ThreadStep(s, t, step).value, t, f, c);
    case _ =>
  }

  /** Thread t goes on, and has no live timeout in its hands. */
  lemma MovesOn(s: Sys, u: Sys, t: nat, f: nat, c: nat)
    requires TimedWait(s, f, c) && u.wait == s.wait && u.io == s.io && u.calls == s.calls && u.tasks == s.tasks
    requires u.tm.timer == s.tm.timer
    requires t < |s.threads| == |u.threads| && forall v | 0 <= v < |s.threads| && v != t :: u.threads[v] == s.threads[v]
    requires !s.calls[c].cancelled ==> !Carries(s.threads[t].phase, TimeoutWork(c))
    ensures TimedWait(u, f, c)
  {
    hide Armed, InQueue, Carries, Carried;
    if !s.calls[c].cancelled { ThreadChanges(s, u, t, c); }
  }

  lemma ClockIsAhead(s: Sys)
    requires Inv(s)
    ensures s.tm.previous <= s.now
  {}

  // ---- every run -------------------------------------------------------------------------------------

  /** With this step fiber f begins a wait with a timeout. */
  ghost predicate Begins(s: Sys, step: Step, f: nat, u: Sys)
    requires T.Coherent(s.tm)
  {
    && f in u.timed && step.Do? && step.t < |s.threads| && Runs(s.threads[step.t].phase, f) && !s.threads[step.t].phase.parked
    && step.act.Park? && step.act.c == u.timed[f]
    && ParkFiber(s, step.t, f, u.timed[f], true, step.act.a, true) == Some(u)
  }

  lemma PickAlone(s: Sys, t: nat)
    requires t < |s.threads| && PickTask(s, t).Some?
    ensures var u := PickTask(s, t).value;
            u.calls == s.calls && forall f | f in u.timed :: f in s.timed && u.timed[f] == s.timed[f]
  {
    hide Search;
  }

  lemma RegisteredAlone(s: Sys, call: Call)
    requires Registered(s, call).Some?
    ensures var u := Registered(s, call).value; u.calls == s.calls && u.timed == s.timed
  {
    hide Perform, WorksOf, Anywhere;
  }

  lemma IdleAlone(s: Sys, t: nat)
    requires t < |s.threads| && T.Known(s.tm.timer, s.tm.order)
    ensures WakeUp(s, t).calls == s.calls && WakeUp(s, t).timed == s.timed
    ensures s.threads[t].phase.Posting? ==> PostOne(s, t).calls == s.calls && PostOne(s, t).timed == s.timed
  {
    hide T.Known, T.ListExpired, TimerWorks, Anywhere;
  }

  lemma RunAlone(s: Sys, t: nat)
    requires t < |s.threads| && T.Known(s.tm.timer, s.tm.order)
    ensures RestThread(s, t).Some? ==> RestThread(s, t).value.calls == s.calls && RestThread(s, t).value.timed == s.timed
    ensures CheckIdle(s, t).calls == s.calls && CheckIdle(s, t).timed == s.timed
  {
    hide T.Known, Stopping, Search;
  }

  lemma PushAlone(s: Sys, task: Task)
    requires Push(s, task).Some?
    ensures Push(s, task).value.calls == s.calls && Push(s, task).value.timed == s.timed
  {
    hide Queued;
  }

  /** No step of another kind begins a wait or marks a call. */
  lemma OtherSteps(s: Sys, step: Step, u: Sys)
    requires T.Coherent(s.tm) && Next(s, step) == Some(u) && !step.Do?
    ensures u.calls == s.calls && forall f | f in u.timed :: f in s.timed && u.timed[f] == s.timed[f]
  {
    hide T.Sorted, PickTask, RestThread, CheckIdle, WakeUp, PostOne, Registered, Push, MayFinish, ReportIsCurrent;
    match step
    case Submit(task) => PushAlone(s, task);
    case Pick(t) => PickAlone(s, t);
    case Rest(t) => RunAlone(s, t);
    case Check(t) => RunAlone(s, t);
    case Wake(t) => IdleAlone(s, t);
    case Post(t) => IdleAlone(s, t);
    case Handle(_, fd, m, hangup, ok) => RegisteredAlone(s, Report(fd, m, hangup, ok));
    case _ =>
  }

  lemma ActBefore(s: Sys, t: nat, act: Act, f: nat, u: Sys)
    requires Inv(s) && T.Coherent(s.tm) && t < |s.threads| && s.threads[t].phase.Holding? && !s.threads[t].phase.parked
    requires DoAct(s, t, s.threads[t].phase.task.work, act) == Some(u) && f in u.timed
    ensures (f in s.timed && u.timed[f] == s.timed[f]) || Begins(s, Do(t, act), f, u)
  {
    hide Inv, T.Coherent, AddEvent, Perform, T.Known, T.AddTimer, T.Cancel, T.Refresh, T.Reset, Unused, MayStop, Queued;
    if act.Park? && act.c in s.calls && AddEvent(s.io, s.calls[act.c].fd, s.calls[act.c].event, Fiber(f), act.ok).0.Done? {
      AddFate(s, s.calls[act.c].fd, s.calls[act.c].event, Fiber(f), act.ok);
    }
  }

  /** A timed wait goes on, or it begins with this step. */
  lemma TimedBefore(s: Sys, step: Step, f: nat, u: Sys)
    requires Inv(s) && T.Coherent(s.tm) && Next(s, step) == Some(u) && f in u.timed
    ensures (f in s.timed && u.timed[f] == s.timed[f]) || Begins(s, step, f, u)
  {
    hide Inv, T.Coherent, DoAct, Begins;
    if step.Do? { ActBefore(s, step.t, step.act, f, u); } else { OtherSteps(s, step, u); }
  }

  lemma NextTimed(s: Sys, step: Step)
    requires Inv(s) && TimedOk(s) && T.Coherent(s.tm) && Next(s, step).Some?
    ensures TimedOk(Next(s, step).value)
  {
    hide Inv, T.Coherent, ThreadStep, Push, TimedWait, ParkFiber;
    var u := Next(s, step).value;
    forall f | f in u.timed ensures TimedWait(u, f, u.timed[f]) {
      TimedBefore(s, step, f, u);
      if f in s.timed && u.timed[f] == s.timed[f] {
        StepTimed(s, step, f, u.timed[f]);
      } else {
        ParkBegins(s, step.t, f, u.timed[f], step.act.a);
      }
    }
  }

  lemma StepTimed(s: Sys, step: Step, f: nat, c: nat)
    requires Inv(s) && T.Coherent(s.tm) && Next(s, step).Some? && TimedWait(s, f, c) && f in Next(s, step).value.timed
    ensures TimedWait(Next(s, step).value, f, c)
  {
    hide Inv, T.Coherent, DoAct, Push, Coming;
    match step
    case Advance(_) => LaterTimed(s, Next(s, step).value, f, c);
    case Halt => LaterTimed(s, Next(s, step).value, f, c);
    case Submit(task) => PushTimedWait(s, task, f, c);
    case Do(t, act) => ActTimed(s, t, act, f, c);
    case _ => ThreadTimed(s, step.t, step, f, c);
  }

  lemma LaterTimed(s: Sys, u: Sys, f: nat, c: nat)
    requires TimedWait(s, f, c) && u == s.(now := u.now, stop := u.stop)
    ensures TimedWait(u, f, c)
  {
    hide Armed, InQueue, Carried;
  }

  lemma {:induction false} RunTimed(s: Sys, steps: seq<Step>)
    requires Inv(s) && TimedOk(s) && RunSteps(s, steps).Some?
    ensures Inv(RunSteps(s, steps).value) && TimedOk(RunSteps(s, steps).value)
  {
    if steps == [] {
    } else {
      hide Inv, TimedOk, Next, T.Coherent;
      var before := RunSteps(s, steps[..|steps| - 1]).value;
      RunTimed(s, steps[..|steps| - 1]);
      NextKeeps(before, steps[|steps| - 1]);
      NextTimed(before, steps[|steps| - 1]);
    }
  }

  // ---- what it comes to --------------------------------------------------------------------------------

  /** In every reachable state the timeout of a waiting fiber can still come exactly if its call is
      not marked: then its callback is armed, collected, queued or in a thread's hands, and wakes
      the fiber if it runs while the event is registered; and a marked call has no callback that
      does anything. */
  lemma TimeoutIsToCome(threads: nat, now: nat, steps: seq<Step>, f: nat)
    requires 0 < now && RunSteps(Boot(threads, now), steps).Some?
    requires f in RunSteps(Boot(threads, now), steps).value.timed
    ensures var s := RunSteps(Boot(threads, now), steps).value;
            var c := s.timed[f];
            && TimedWait(s, f, c)
            && (!s.calls[c].cancelled ==>
                  && Coming(s, c) && Timeout(s, c, true).Some?
                  && (s.io.fate[s.wait[f]].Waiting? ==> Queued(Timeout(s, c, true).value.tasks, f)))
            && (s.calls[c].cancelled ==> forall ok :: Timeout(s, c, ok) == Some(s))
  {
    BootInv(threads, now);
    RunTimed(Boot(threads, now), steps);
    hide RunSteps, Boot, Inv;
    var s := RunSteps(Boot(threads, now), steps).value;
    if !s.calls[s.timed[f]].cancelled { TimeoutWakes(s, f, s.timed[f]); }
  }

  /** Taking the event of a waiting fiber out puts that fiber in the queue. */
  lemma CancelWakes(io: Io, fd: nat, e: Event, f: nat, r: nat)
    requires Coherent(io) && r < |io.fate| && io.fate[r] == Waiting(fd, e) && WaiterOf(io, r) == Some(Fiber(f))
    ensures var t := CancelEvent(io, fd, e, true).0; t.Done? && t.io.woken == io.woken + [Woken(Fiber(f), r)]
  {
    hide CancelEvent, BitCount, Waits, Schedules, EpollMatches;
    CancelKeeps(io, fd, e, true);
    assert FateHolds(io, r) && BitsMatch(io.fds[fd]);
  }

  lemma WokenIsQueued(s: Sys, call: Call, f: nat, r: nat)
    requires Perform(s.io, call).Done? && Perform(s.io, call).io.woken == s.io.woken + [Woken(Fiber(f), r)]
    ensures Queued(Registered(s, call).value.tasks, f)
  {
    hide Perform;
    var io := Perform(s.io, call).io;
    var works := WorksOf(io.woken[|s.io.woken|..]);
    assert io.woken[|s.io.woken|..][0].waiter == Fiber(f);
    assert Registered(s, call).value.tasks[|s.tasks|] == Anywhere(works)[0];
  }

  lemma CancelReturns(io: Io, fd: nat, e: Event, ok: bool)
    requires Coherent(io)
    ensures CancelEvent(io, fd, e, ok).0.Done?
  {
    hide CancelEvent;
    CancelKeeps(io, fd, e, ok);
  }

  lemma TimeoutWakes(s: Sys, f: nat, c: nat)
    requires Inv(s) && TimedWait(s, f, c) && !s.calls[c].cancelled
    ensures Timeout(s, c, true).Some?
    ensures s.io.fate[s.wait[f]].Waiting? ==> Queued(Timeout(s, c, true).value.tasks, f)
  {
    hide Counts, PinnedOk, EndedOk, InTime, T.Coherent, DeadlinesFit, Coming, UniqueFibers, WaitsOk, ContextsOk, ParkedOk,
      CancelEvent, Queued, WithIo, Coherent;
    var call := s.calls[c];
    CancelReturns(s.io, call.fd, call.event, true);
    if s.io.fate[s.wait[f]].Waiting? {
      CancelWakes(s.io, call.fd, call.event, f, s.wait[f]);
      WokenIsQueued(s.(calls := s.calls[c := call.(cancelled := true)]), Cancel(call.fd, call.event, true), f, s.wait[f]);
    }
  }

  lemma TimedAt(s: Sys, f: nat)
    requires TimedOk(s) && f in s.timed
    ensures TimedWait(s, f, s.timed[f])
  {}

  /** Only its timeout callback marks a call. */
  lemma ActMarks(s: Sys, t: nat, act: Act, c: nat)
    requires T.Coherent(s.tm) && t < |s.threads| && s.threads[t].phase.Holding? && c in s.calls && c < s.nextCall
    requires s.threads[t].phase.task.work != FiberWork(s.calls[c].fiber) && !s.calls[c].cancelled
    requires DoAct(s, t, s.threads[t].phase.task.work, act).Some?
    ensures var u := DoAct(s, t, s.threads[t].phase.task.work, act).value;
            && c in u.calls
            && (u.calls[c].cancelled ==> s.threads[t].phase.task.work == TimeoutWork(c) && act.RunTimeout?
                                         && Timeout(s, c, act.ok) == Some(u))
  {
    hide T.Coherent, AddEvent, Registered, TimerAct, ParkFiber, Unused, MayStop, Queued;
    match act
    case Change(call) => RegisteredAlone(s, call);
    case Park(d, armed, a, ok) => ParkAlone(s, t, s.threads[t].phase.task.work.f, d, armed, a, ok);
    case RunTimeout(ok) =>
      var d := s.threads[t].phase.task.work.c;
      if d in s.calls && !s.calls[d].cancelled {
        var call := s.calls[d];
        RegisteredAlone(s.(calls := s.calls[d := call.(cancelled := true)]), Cancel(call.fd, call.event, ok));
      }
    case Schedule(_) =>
    case OnFiber(_) =>
    case AddCallback(_, _, _, _) =>
    case BeginCall(_, _, _) =>
    case EndCall(_) =>
    case _ => TimersAlone(s, act);
  }

  lemma ParkAlone(s: Sys, t: nat, f: nat, c: nat, armed: bool, a: nat, ok: bool)
    requires T.Coherent(s.tm) && t < |s.threads| && s.threads[t].phase.Holding? && ParkFiber(s, t, f, c, armed, a, ok).Some?
    ensures ParkFiber(s, t, f, c, armed, a, ok).value.calls == s.calls
  {
    hide T.Sorted, T.AddTimer, T.Cancel, AddEvent;
  }

  lemma MarkedBy(s: Sys, step: Step, f: nat, c: nat)
    requires Inv(s) && T.Coherent(s.tm) && Next(s, step).Some? && step.Do? && TimedWait(s, f, c)
    requires !s.calls[c].cancelled && s.io.fate[s.wait[f]].Waiting?
    ensures step.t < |s.threads| && s.threads[step.t].phase.Holding? && !Runs(s.threads[step.t].phase, f)
    ensures var u := Next(s, step).value;
            && c in u.calls
            && (u.calls[c].cancelled ==> s.threads[step.t].phase.task.work == TimeoutWork(c) && step.act.RunTimeout?
                                         && (step.act.ok ==> Queued(u.tasks, f)))
  {
    hide Inv, Coming, Queued, DoAct, Timeout, T.Coherent;
    WaitingIsIdle(s, step.t, f);
    CallIsOld(s, f, c);
    ActMarks(s, step.t, step.act, c);
    TimeoutWakes(s, f, c);
  }

  /** A wait that began unmarked gets its mark only from the timeout callback of its call, and then
      it is over, unless epoll_ctl refuses to take the event out. */
  lemma MarkEndsWait(s: Sys, step: Step, f: nat)
    requires Inv(s) && TimedOk(s) && T.Coherent(s.tm) && Next(s, step).Some? && f in s.timed && f in Next(s, step).value.timed
    requires !s.calls[s.timed[f]].cancelled && s.io.fate[s.wait[f]].Waiting?
    ensures var u := Next(s, step).value;
            var c := s.timed[f];
            && u.timed[f] == c && c in u.calls
            && (u.calls[c].cancelled ==>
                  && step.Do? && step.t < |s.threads| && s.threads[step.t].phase.Holding?
                  && s.threads[step.t].phase.task.work == TimeoutWork(c) && step.act.RunTimeout?
                  && (step.act.ok ==> Queued(u.tasks, f)))
  {
    hide Inv, TimedOk, Next, Coming, T.Coherent, ParkFiber;
    TimedAt(s, f);
    TimedBefore(s, step, f, Next(s, step).value);
    if step.Do? { MarkedBy(s, step, f, s.timed[f]); } else { OtherSteps(s, step, Next(s, step).value); }
  }

  // ---- a timeout that never comes ----------------------------------------------------------------------

  /** Fiber 0 waits for READ on descriptor 0 with a timeout of 0 ms. Thread 1 collects the timeout,
      and the event comes before the callback runs; so fiber 0 and the callback run side by side,
      the callback marks the call and finds no event to cancel, and the fiber waits once more. */
  const TO_LOSS: seq<Step> := [
    Rest(1), Check(1), Submit(Task(FiberWork(0), -1)), Pick(0), Do(0, BeginCall(0, READ, 0)), Do(0, Park(0, true, 0, true)),
    Finish(0), Wake(1), Post(1), Post(1), Handle(1, 0, Mask(true, false), false, true), Leave(1), Pick(0), Pick(1),
    Do(0, RunTimeout(true)), Do(1, Park(0, true, 1, true))]

  function Fds(read: Ctx): seq<FdContext> { Start().fds[0 := FdContext(Mask(read.Filled?, false), read, Empty)] }

  /** The registrations before the first wait, in it, after it and in the second. */
  function LossIo(k: nat): Io {
    var on := map[0 := Mask(true, false)];
    if k == 0 then Start()
    else if k == 1 then Io(Fds(Filled(Fiber(0), 0)), on, 1, [], [Waiting(0, READ)])
    else if k == 2 then Io(Fds(Empty), map[], 0, [Woken(Fiber(0), 0)], [Scheduled(0)])
    else Io(Fds(Filled(Fiber(0), 1)), on, 1, [Woken(Fiber(0), 0)], [Scheduled(0), Waiting(0, READ)])
  }

  /** The timers in the same four states. */
  function LossTimers(now: nat, k: nat): T.State {
    var spent, armed := T.Timer(now, 0, false, None), T.Timer(now, 0, false, Some(1));
    if k == 0 then T.State(map[], [], false, now)
    else if k == 1 then T.State(map[0 := armed], [0], true, now)
    else if k == 2 then T.State(map[0 := spent], [], true, now)
    else T.State(map[0 := spent, 1 := armed], [1], true, now)
  }

  /** The state after each of these steps. */
  function Lossy(now: nat, k: nat): Sys {
    var fiber, timeout := Task(FiberWork(0), -1), Task(TimeoutWork(0), -1);
    var run, idle := Thread(Ready, false), Thread(Polling, false);
    var first := Hooked(0, 0, READ, now, 0, false);
    var begun := Boot(2, now).(submitted := 1, calls := map[0 := first], nextCall := 1);
    var waits := begun.(io := LossIo(1), tm := LossTimers(now, 1), wait := map[0 := 0], timed := map[0 := 0]);
    var fired := waits.(tm := LossTimers(now, 2), completed := 1);
    var woken := fired.(io := LossIo(2), submitted := 3);
    var resumed := woken.(tasks := [], wait := map[], timed := map[], active := 2);
    if k == 0 then Boot(2, now)
    else if k == 1 then Boot(2, now).(threads := [run, Thread(Top, false)], idle := 1)
    else if k == 2 then Boot(2, now).(threads := [run, idle], idle := 1)
    else if k == 3 then Boot(2, now).(threads := [run, idle], idle := 1, tasks := [fiber], submitted := 1)
    else if k == 4 then
      Boot(2, now).(threads := [Thread(Holding(fiber, false), false), idle], idle := 1, active := 1, submitted := 1)
    else if k == 5 then begun.(threads := [Thread(Holding(fiber, false), false), idle], idle := 1, active := 1)
    else if k == 6 then waits.(threads := [Thread(Holding(fiber, true), false), idle], idle := 1, active := 1)
    else if k == 7 then waits.(threads := [run, idle], idle := 1, completed := 1)
    else if k == 8 then fired.(threads := [run, Thread(Posting([TimeoutWork(0)]), false)], idle := 1)
    else if k == 9 then
      fired.(threads := [run, Thread(Posting([]), false)], idle := 1, tasks := [timeout], submitted := 2)
    else if k == 10 then fired.(threads := [run, Thread(Handling, false)], idle := 1, tasks := [timeout], submitted := 2)
    else if k == 11 then woken.(threads := [run, Thread(Handling, false)], idle := 1, tasks := [timeout, fiber])
    else if k == 12 then woken.(threads := [run, run], tasks := [timeout, fiber])
    else if k == 13 then woken.(threads := [Thread(Holding(timeout, false), false), run], tasks := [fiber], active := 1)
    else if k == 14 then
      resumed.(threads := [Thread(Holding(timeout, false), false), Thread(Holding(fiber, false), false)])
    else
      var marked := resumed.(calls := map[0 := first.(cancelled := true)]);
      if k == 15 then
        marked.(threads := [Thread(Holding(timeout, false), false), Thread(Holding(fiber, false), false)])
      else
        marked.(threads := [Thread(Holding(timeout, false), false), Thread(Holding(fiber, true), false)],
                io := LossIo(3), tm := LossTimers(now, 3), wait := map[0 := 1], timed := map[0 := 0])
  }

  lemma LossyTimers(now: nat, k: nat)
    ensures |Lossy(now, k).threads| == 2 && T.Coherent(Lossy(now, k).tm)
  {}

  /** The step from the k-th state to the next. */
  ghost predicate LossStep(now: nat, k: nat)
    requires k < 16
  {
    T.Coherent(Lossy(now, k).tm) && Next(Lossy(now, k), TO_LOSS[k]) == Some(Lossy(now, k + 1))
  }

  lemma GoIdle(now: nat, k: nat)
    requires k < 2
    ensures LossStep(now, k)
  {
    assert Lossy(now, k).threads[1 := Lossy(now, k + 1).threads[1]] == Lossy(now, k + 1).threads;
  }

  lemma GetFiber(now: nat)
    ensures LossStep(now, 2)
  {
    var s := Lossy(now, 2);
    assert s.tasks + [Task(FiberWork(0), -1)] == Lossy(now, 3).tasks;
  }

  lemma TakeFiber(now: nat)
    ensures LossStep(now, 3)
  {
    var s, u := Lossy(now, 3), Lossy(now, 4);
    assert Eligible(s, 0, s.tasks[0]) && Search(s, 0, 0) == 0;
    assert s.tasks[..0] + s.tasks[1..] == [];
    assert s.threads[0 := u.threads[0]] == u.threads;
    assert s.wait - {0} == map[] && s.timed - {0} == map[];
  }

  lemma Begin(now: nat)
    ensures LossStep(now, 4)
  {
    assert Lossy(now, 4).calls[0 := Hooked(0, 0, READ, now, 0, false)] == Lossy(now, 5).calls;
  }

  lemma FirstAdd()
    ensures AddEvent(LossIo(0), 0, READ, Fiber(0), true) == (Done(LossIo(1)), 0)
  {
    assert LossIo(0).fate + [Waiting(0, READ)] == [Waiting(0, READ)];
  }

  lemma SecondAdd()
    ensures AddEvent(LossIo(2), 0, READ, Fiber(0), true) == (Done(LossIo(3)), 0)
  {
    assert Fds(Empty) == Start().fds;
    assert LossIo(2).fate + [Waiting(0, READ)] == LossIo(3).fate;
  }

  lemma FirstTimer(now: nat)
    requires now < T.WORD
    ensures T.AddTimer(LossTimers(now, 0), 0, 0, 1, false, now).0 == LossTimers(now, 1)
  {
    var t := T.Timer(now, 0, false, Some(1));
    assert T.Insert(map[0 := t], [], 0) == [0];
  }

  lemma SecondTimer(now: nat)
    requires now < T.WORD
    ensures T.AddTimer(LossTimers(now, 2), 1, 0, 1, false, now).0 == LossTimers(now, 3)
  {
    var timer := LossTimers(now, 2).timer[1 := T.Timer(now, 0, false, Some(1))];
    assert timer == LossTimers(now, 3).timer;
    assert T.Insert(timer, [], 1) == [1];
  }

  lemma FirstWait(now: nat)
    requires now < T.WORD
    ensures LossStep(now, 5)
  {
    hide AddEvent, T.AddTimer, LossIo, LossTimers;
    LossyTimers(now, 5);
    FirstAdd();
    FirstTimer(now);
    LossStarts(now);
    FateLength();
    assert Lossy(now, 5).threads[0 := Lossy(now, 6).threads[0]] == Lossy(now, 6).threads;
    assert Lossy(now, 6).wait == Lossy(now, 5).wait[0 := 0] && Lossy(now, 6).timed == Lossy(now, 5).timed[0 := 0];
  }

  lemma LossStarts(now: nat)
    ensures LossTimers(now, 0) == Boot(2, now).tm && LossIo(0) == Boot(2, now).io
  {}

  lemma FateLength()
    ensures |LossIo(0).fate| == 0 && |LossIo(2).fate| == 1
  {}

  lemma FiberYields(now: nat)
    ensures LossStep(now, 6)
  {
    hide LossIo, LossTimers, T.Coherent;
    LossyTimers(now, 6);
    assert Lossy(now, 6).threads[0 := Lossy(now, 7).threads[0]] == Lossy(now, 7).threads;
  }

  lemma TimeoutCollected(now: nat)
    requires now < T.WORD
    ensures LossStep(now, 7)
  {
    hide T.ListExpired, T.Coherent, LossTimers, LossIo, TimerWorks;
    LossyTimers(now, 7);
    TimerSpent(now);
    assert Lossy(now, 7).threads[1 := Lossy(now, 8).threads[1]] == Lossy(now, 8).threads;
  }

  lemma TimerSpent(now: nat)
    requires now < T.WORD
    ensures T.Known(LossTimers(now, 1).timer, [0])
    ensures var (tm, cbs) := T.ListExpired(LossTimers(now, 1), now); tm == LossTimers(now, 2) && TimerWorks(cbs) == [TimeoutWork(0)]
  {
    var s := LossTimers(now, 1);
    var t := s.timer[0];
    assert T.Due(s.timer, [0], now) == 1;
    assert [0][..1] == [0] && [0][1..] == [];
    assert s.timer[0 := T.Spent(t, now)] == map[0 := t.(cb := None)];
    assert T.FireAll(s.timer, [], [0], now) == (map[0 := t.(cb := None)], []);
    assert T.Callbacks(s.timer, [0]) == [Some(1)];
    assert TimerWorks([Some(1)]) == [TimeoutWork(0)] by { assert [Some(1)][..0] == [] && TimerWorks([]) == []; }
  }

  lemma TimeoutPosted(now: nat)
    ensures LossStep(now, 8)
  {
    hide LossIo, LossTimers, T.Coherent, Anywhere;
    LossyTimers(now, 8);
    var s, u := Lossy(now, 8), Lossy(now, 9);
    assert [TimeoutWork(0)][1..] == [];
    assert s.threads[1 := u.threads[1]] == u.threads;
    assert Anywhere([TimeoutWork(0)]) == [Task(TimeoutWork(0), -1)];
    assert s.tasks + [Task(TimeoutWork(0), -1)] == u.tasks;
  }

  lemma NoneLeft(now: nat)
    ensures LossStep(now, 9)
  {
    hide LossIo, LossTimers, T.Coherent;
    LossyTimers(now, 9);
    assert Lossy(now, 9).threads[1 := Lossy(now, 10).threads[1]] == Lossy(now, 10).threads;
  }

  lemma EventFires()
    ensures Perform(LossIo(1), Report(0, Mask(true, false), false, true)) == Done(LossIo(2))
    ensures ReportIsCurrent(LossIo(1), 0, Mask(true, false), false)
  {
    assert LossIo(1).epoll - {0} == map[];
    assert Fds(Filled(Fiber(0), 0))[0 := FRESH] == Fds(Empty);
    assert [Waiting(0, READ)][0 := Scheduled(0)] == LossIo(2).fate;
    assert LossIo(1).woken + [Woken(Fiber(0), 0)] == LossIo(2).woken;
  }

  lemma OneWoken(s: Sys, more: seq<Woken>)
    requires s.tasks == [Task(TimeoutWork(0), -1)] && more == [Woken(Fiber(0), 0)]
    ensures Enqueue(s, WorksOf(more)) ==
            s.(tasks := [Task(TimeoutWork(0), -1), Task(FiberWork(0), -1)], submitted := s.submitted + 1)
  {
    hide WorksOf, Anywhere;
    assert WorksOf(more) == [FiberWork(0)];
    assert Anywhere([FiberWork(0)]) == [Task(FiberWork(0), -1)];
    assert s.tasks + [Task(FiberWork(0), -1)] == [Task(TimeoutWork(0), -1), Task(FiberWork(0), -1)];
  }

  lemma FiberWoken(now: nat)
    ensures LossStep(now, 10)
  {
    hide Perform, ReportIsCurrent, Enqueue, T.Coherent, LossTimers, LossIo;
    LossyTimers(now, 10);
    EventFires();
    EventTable();
    OneWoken(Lossy(now, 10).(io := LossIo(2)), LossIo(2).woken[|LossIo(1).woken|..]);
  }

  lemma EventTable()
    ensures |LossIo(1).fds| == 32 && |LossIo(1).woken| <= |LossIo(2).woken|
    ensures LossIo(2).woken[|LossIo(1).woken|..] == [Woken(Fiber(0), 0)]
  {}

  lemma IdleLeft(now: nat)
    ensures LossStep(now, 11)
  {
    hide LossIo, LossTimers, T.Coherent;
    LossyTimers(now, 11);
    assert Lossy(now, 11).threads[1 := Lossy(now, 12).threads[1]] == Lossy(now, 12).threads;
  }

  lemma TimeoutPicked(now: nat)
    ensures LossStep(now, 12)
  {
    hide LossIo, LossTimers, T.Coherent;
    LossyTimers(now, 12);
    var s, u := Lossy(now, 12), Lossy(now, 13);
    assert Eligible(s, 0, s.tasks[0]) && Search(s, 0, 0) == 0;
    assert s.tasks[..0] + s.tasks[1..] == u.tasks;
    assert s.threads[0 := u.threads[0]] == u.threads;
  }

  lemma FiberResumed(now: nat)
    ensures LossStep(now, 13)
  {
    hide LossIo, LossTimers, T.Coherent;
    LossyTimers(now, 13);
    var s, u := Lossy(now, 13), Lossy(now, 14);
    assert Eligible(s, 1, s.tasks[0]) && Search(s, 1, 0) == 0;
    assert s.tasks[..0] + s.tasks[1..] == u.tasks;
    assert s.threads[1 := u.threads[1]] == u.threads;
    assert s.wait - {0} == map[] && s.timed - {0} == map[];
  }

  lemma NothingToCancel()
    ensures CancelEvent(LossIo(2), 0, READ, true).0 == Done(LossIo(2))
  {}

  lemma NobodyWoken(s: Sys)
    ensures Enqueue(s, WorksOf(LossIo(2).woken[|LossIo(2).woken|..])) == s
  {
    assert LossIo(2).woken[1..] == [] && s.tasks + [] == s.tasks;
  }

  lemma MarksOnly(s: Sys, call: Hooked)
    requires s.io == LossIo(2) && s.calls == map[0 := call] && !call.cancelled && call.fd == 0 && call.event == READ
    ensures Timeout(s, 0, true) == Some(s.(calls := map[0 := call.(cancelled := true)]))
  {
    hide CancelEvent, Enqueue, LossIo;
    NothingToCancel();
    assert s.calls[0 := call.(cancelled := true)] == map[0 := call.(cancelled := true)];
    NobodyWoken(s.(calls := map[0 := call.(cancelled := true)]));
  }

  lemma CallMarked(now: nat)
    ensures LossStep(now, 14)
  {
    hide LossIo, LossTimers, T.Coherent, Timeout;
    LossyTimers(now, 14);
    MarksOnly(Lossy(now, 14), Lossy(now, 14).calls[0]);
  }

  lemma SecondWait(now: nat)
    requires now < T.WORD
    ensures LossStep(now, 15)
  {
    hide AddEvent, T.AddTimer, LossIo;
    LossyTimers(now, 15);
    SecondAdd();
    SecondTimer(now);
    FateLength();
    assert Lossy(now, 15).threads[1 := Lossy(now, 16).threads[1]] == Lossy(now, 16).threads;
    assert Lossy(now, 16).wait == Lossy(now, 15).wait[0 := 1] && Lossy(now, 16).timed == Lossy(now, 15).timed[0 := 0];
  }

  lemma LossyStep(now: nat, k: nat)
    requires k < 16 && now < T.WORD
    ensures LossStep(now, k)
  {
    hide LossStep;
    if k < 2 { GoIdle(now, k); }
    else if k == 2 { GetFiber(now); }
    else if k == 3 { TakeFiber(now); }
    else if k == 4 { Begin(now); }
    else if k == 5 { FirstWait(now); }
    else if k == 6 { FiberYields(now); }
    else if k == 7 { TimeoutCollected(now); }
    else if k == 8 { TimeoutPosted(now); }
    else if k == 9 { NoneLeft(now); }
    else if k == 10 { FiberWoken(now); }
    else if k == 11 { IdleLeft(now); }
    else if k == 12 { TimeoutPicked(now); }
    else if k == 13 { FiberResumed(now); }
    else if k == 14 { CallMarked(now); }
    else { SecondWait(now); }
  }

  lemma {:induction false} LossyRun(now: nat, k: nat)
    requires k <= 16 && now < T.WORD
    ensures RunSteps(Boot(2, now), TO_LOSS[..k]) == Some(Lossy(now, k))
  {
    hide Next, T.Coherent, Boot;
    if k > 0 {
      LossyRun(now, k - 1);
      assert TO_LOSS[..k][..k - 1] == TO_LOSS[..k - 1] && TO_LOSS[..k][k - 1] == TO_LOSS[k - 1];
      LossyStep(now, k - 1);
    }
  }

  lemma LossEnd(now: nat)
    ensures var s := Lossy(now, 16);
            && 0 in s.timed && 0 in s.wait && s.wait[0] < |s.io.fate| && s.io.fate[s.wait[0]] == Waiting(0, READ)
            && s.timed[0] in s.calls && s.calls[s.timed[0]].cancelled && Armed(s.tm.timer, s.timed[0])
  {
    assert LossTimers(now, 3).timer[1].cb == Some(1);
  }

  /** A timeout can be lost: the system reaches a state where a fiber waits with a timeout, its event
      is registered and its timer armed, and the call is marked, so that no callback of the call
      will ever wake it. */
  lemma TimeoutIsLost(now: nat)
    requires 0 < now < T.WORD
    ensures RunSteps(Boot(2, now), TO_LOSS).Some?
    ensures var s := RunSteps(Boot(2, now), TO_LOSS).value;
            && 0 in s.timed && TimedWait(s, 0, s.timed[0]) && s.io.fate[s.wait[0]] == Waiting(0, READ)
            && s.calls[s.timed[0]].cancelled && Armed(s.tm.timer, s.timed[0])
            && forall ok :: Timeout(s, s.timed[0], ok) == Some(s)
  {
    LossyRun(now, 16);
    assert TO_LOSS[..16] == TO_LOSS;
    LossEnd(now);
    hide RunSteps, Lossy, Timeout, TimedWait;
    TimeoutIsToCome(2, now, TO_LOSS, 0);
  }
}
