/** The IOManager at work: scheduling threads, the task queue, event registrations, timers and the
    waits of hooked calls, as one system of atomic steps. */
module Protocol {
  import opened Options
  import opened IoEvents
  import opened IoMoves
  import T = Timers

  /** A callback of the user or the timeout callback of a hooked call, by number. */
  datatype Work = FiberWork(f: nat) | CbWork(c: nat) | TimeoutWork(c: nat)

  /** thread is -1 for any. */
  datatype Task = Task(work: Work, thread: int)

  /** Where a scheduling thread is: in run about to look at the queue, with a task in its hands
      (a fiber that has registered its wait does nothing more until it yields), or in idle. */
  datatype Phase =
    | Ready | Holding(task: Task, parked: bool)
    | Top | Polling | Posting(works: seq<Work>) | Handling
    | Gone

  datatype Thread = Thread(phase: Phase, idleEnded: bool)

  /** One hooked call: its fiber, what it waits for, when it began, its timeout and the cancelled
      mark of its timer_info. */
  datatype Hooked = Hooked(fiber: nat, fd: nat, event: Event, since: nat, to: nat, cancelled: bool)

  datatype Sys = Sys(
    tasks: seq<Task>, threads: seq<Thread>, active: int, idle: int, stop: bool, submitted: nat, completed: nat,
    io: Io, tm: T.State, now: nat,
    wait: map<nat, nat>,        // the registration a fiber waits for, until it is resumed
    timed: map<nat, nat>,       // the call whose wait with a timeout a fiber is in, until then
    calls: map<nat, Hooked>, nextCall: nat)

  // ---- the queue -----------------------------------------------------------------------------

  predicate InIdle(p: Phase) { p.Top? || p.Polling? || p.Posting? || p.Handling? }

  predicate Runs(p: Phase, f: nat) { p.Holding? && p.task.work == FiberWork(f) }

  predicate Running(s: Sys, f: nat) { exists t | 0 <= t < |s.threads| :: Runs(s.threads[t].phase, f) }

  /** A thread takes tasks for any thread or for itself, and no fiber that is still running. */
  predicate Eligible(s: Sys, t: nat, task: Task) {
    (task.thread == -1 || task.thread == t) && !(task.work.FiberWork? && Running(s, task.work.f))
  }

  /** The first eligible task from i on. */
  function Search(s: Sys, t: nat, i: nat): (k: nat)
    requires i <= |s.tasks|
    ensures i <= k <= |s.tasks|
    ensures forall j | i <= j < k :: !Eligible(s, t, s.tasks[j])
    ensures k < |s.tasks| ==> Eligible(s, t, s.tasks[k])
    decreases |s.tasks| - i
  {
    if i == |s.tasks| || Eligible(s, t, s.tasks[i]) then i else Search(s, t, i + 1)
  }

  function Anywhere(works: seq<Work>): (r: seq<Task>)
    ensures |r| == |works| && forall i | 0 <= i < |r| :: r[i] == Task(works[i], -1)
  {
    if works == [] then [] else Anywhere(works[..|works| - 1]) + [Task(works[|works| - 1], -1)]
  }

  function Enqueue(s: Sys, works: seq<Work>): Sys {
    s.(tasks := s.tasks + Anywhere(works), submitted := s.submitted + |works|)
  }

  function Move(s: Sys, t: nat, p: Phase): Sys
    requires t < |s.threads|
  {
    s.(threads := s.threads[t := s.threads[t].(phase := p)])
  }

  // ---- events and timers -----------------------------------------------------------------------

  function WorkOf(w: Waiter): Work { match w case Fiber(f) => FiberWork(f) case Callback(c) => CbWork(c) }

  function WorksOf(woken: seq<Woken>): (r: seq<Work>)
    ensures |r| == |woken| && forall i | 0 <= i < |r| :: r[i] == WorkOf(woken[i].waiter)
  {
    if woken == [] then [] else WorksOf(woken[..|woken| - 1]) + [WorkOf(woken[|woken| - 1].waiter)]
  }

  /** The new state of the registrations, with what was woken in the queue. */
  function WithIo(s: Sys, io: Io): Sys {
    Enqueue(s.(io := io), if |s.io.woken| <= |io.woken| then WorksOf(io.woken[|s.io.woken|..]) else [])
  }

  function Registered(s: Sys, call: Call): Option<Sys> {
    match Perform(s.io, call) case Done(io) => Some(WithIo(s, io)) case AssertFailed => None
  }

  /** Callbacks of timers are numbered: even for those of users, odd for timeouts of hooked calls. */
  function TimerWork(cb: nat): Work { if cb % 2 == 0 then CbWork(cb / 2) else TimeoutWork(cb / 2) }

  function TimerWorks(cbs: seq<Option<nat>>): (r: seq<Work>)
    ensures forall w | w in r :: exists i | 0 <= i < |cbs| :: cbs[i].Some? && w == TimerWork(cbs[i].value)
  {
    if cbs == [] then []
    else
      var rest := TimerWorks(cbs[..|cbs| - 1]);
      if cbs[|cbs| - 1].Some? then rest + [TimerWork(cbs[|cbs| - 1].value)] else rest
  }

  /** IOManager::stopping in one step. */
  predicate Stopping(s: Sys)
    requires T.Known(s.tm.timer, s.tm.order)
  {
    T.GetNextTimer(s.tm, s.now).1 == T.NEVER && s.io.pending == 0 && s.stop && s.tasks == [] && s.active == 0
  }

  // ---- what a running task can do ----------------------------------------------------------------

  datatype Act =
    | Schedule(task: Task)
    | OnFiber(f: nat)
    | AddCallback(fd: nat, event: Event, c: nat, ok: bool)
    | Change(call: Call)
    | StartTimer(a: nat, ms: nat, c: nat, recurring: bool)
    | StopTimer(a: nat)
    | RefreshTimer(a: nat)
    | ResetTimer(a: nat, ms: nat, fromNow: bool)
    | BeginCall(fd: nat, event: Event, to: nat)
    | Park(c: nat, armed: bool, a: nat, ok: bool)
    | EndCall(c: nat)
    | RunTimeout(ok: bool)

  predicate Queued(tasks: seq<Task>, f: nat) { exists i | 0 <= i < |tasks| :: tasks[i].work == FiberWork(f) }

  /** What users may schedule: any callback, and fibers that neither wait nor are queued. */
  function Push(s: Sys, task: Task): Option<Sys> {
    match task.work
    case FiberWork(f) =>
      if f in s.wait || Queued(s.tasks, f) then None
      else Some(s.(tasks := s.tasks + [task], submitted := s.submitted + 1))
    case CbWork(_) => Some(s.(tasks := s.tasks + [task], submitted := s.submitted + 1))
    case TimeoutWork(_) => None
  }

  /** No live fiber has this number. */
  predicate Unused(s: Sys, f: nat) {
    f !in s.wait && !Queued(s.tasks, f) && !Running(s, f) && forall c | c in s.calls :: s.calls[c].fiber != f
  }

  predicate UsersTimer(s: Sys, a: nat) {
    a in s.tm.timer && (s.tm.timer[a].cb.Some? ==> s.tm.timer[a].cb.value % 2 == 0)
  }

  /** Timers that a task can stop: those of users, and a fiber also those of its own calls. */
  predicate MayStop(s: Sys, work: Work, a: nat) {
    UsersTimer(s, a)
    || (a in s.tm.timer && s.tm.timer[a].cb.Some? && work.FiberWork?
        && var c := s.tm.timer[a].cb.value / 2; c in s.calls && s.calls[c].fiber == work.f)
  }

  function TimerAct(s: Sys, act: Act): Option<Sys>
    requires T.Coherent(s.tm)
  {
    match act
    case StartTimer(a, ms, c, recurring) =>
      if a in s.tm.timer then None else Some(s.(tm := T.AddTimer(s.tm, a, ms, 2 * c, recurring, s.now).0))
    case StopTimer(a) => if a in s.tm.timer then Some(s.(tm := T.Cancel(s.tm, a).0)) else None
    case RefreshTimer(a) => if UsersTimer(s, a) then Some(s.(tm := T.Refresh(s.tm, a, s.now).0)) else None
    case ResetTimer(a, ms, fromNow) =>
      if UsersTimer(s, a) then Some(s.(tm := T.Reset(s.tm, a, ms, fromNow, s.now).0)) else None
    case _ => None
  }

  /** The wait of a hooked call: a timer if it has a timeout, the event, and off the processor; if
      the event cannot be added the timer is taken back. */
  function ParkFiber(s: Sys, t: nat, f: nat, c: nat, armed: bool, a: nat, ok: bool): Option<Sys>
    requires T.Coherent(s.tm) && t < |s.threads| && s.threads[t].phase.Holding?
  {
    if c !in s.calls || s.calls[c].fiber != f || a in s.tm.timer || s.now + s.calls[c].to >= T.WORD || Queued(s.tasks, f) then None
    else
      var call := s.calls[c];
      var tm := if armed then T.AddTimer(s.tm, a, call.to, 2 * c + 1, false, s.now).0 else s.tm;
      match AddEvent(s.io, call.fd, call.event, Fiber(f), ok)
      case (Done(io), rt) =>
        if rt == 0 then
          Some(s.(io := io, tm := tm, wait := s.wait[f := |s.io.fate|],
                  timed := if armed then s.timed[f := c] else s.timed - {f},
                  threads := s.threads[t := s.threads[t].(phase := s.threads[t].phase.(parked := true))]))
        else Some(s.(io := io, tm := if armed then T.Cancel(tm, a).0 else tm))
      case (AssertFailed, _) => None
  }

  /** The timeout callback: once, and only while its call is still going on. */
  function Timeout(s: Sys, c: nat, ok: bool): Option<Sys> {
    if c !in s.calls || s.calls[c].cancelled then Some(s)
    else
      var call := s.calls[c];
      Registered(s.(calls := s.calls[c := call.(cancelled := true)]), Cancel(call.fd, call.event, ok))
  }

  function DoAct(s: Sys, t: nat, work: Work, act: Act): Option<Sys>
    requires T.Coherent(s.tm) && t < |s.threads| && s.threads[t].phase.Holding?
  {
    match act
    case Schedule(task) => Push(s, task)
    case OnFiber(f) =>
      // a callback runs on a fiber of its own, and can wait like any other
      if work.CbWork? && Unused(s, f) then Some(Move(s, t, Holding(Task(FiberWork(f), s.threads[t].phase.task.thread), false)))
      else None
    case AddCallback(fd, e, c, ok) =>
      (match AddEvent(s.io, fd, e, Callback(c), ok).0 case Done(io) => Some(s.(io := io)) case AssertFailed => None)
    case Change(call) => if call.Add? || call.Report? then None else Registered(s, call)
    case BeginCall(fd, e, to) =>
      if !work.FiberWork? then None
      else Some(s.(calls := s.calls[s.nextCall := Hooked(work.f, fd, e, s.now, to, false)], nextCall := s.nextCall + 1))
    case Park(c, armed, a, ok) => if work.FiberWork? then ParkFiber(s, t, work.f, c, armed, a, ok) else None
    case EndCall(c) =>
      if work.FiberWork? && c in s.calls && s.calls[c].fiber == work.f then Some(s.(calls := s.calls - {c})) else None
    case RunTimeout(ok) => if work.TimeoutWork? then Timeout(s, work.c, ok) else None
    case StopTimer(a) => if MayStop(s, work, a) then TimerAct(s, act) else None
    case _ => TimerAct(s, act)
  }

  /** A timeout callback runs to its end. */
  predicate MayFinish(s: Sys, work: Work) { work.TimeoutWork? && work.c in s.calls ==> s.calls[work.c].cancelled }

  // ---- the steps ------------------------------------------------------------------------------------

  datatype Step =
    | Advance(ms: nat)                    // time goes by
    | Submit(task: Task)                  // somebody outside schedules; not after stop
    | Halt                                // stop
    | Pick(t: nat) | Rest(t: nat)         // run: take a task, or go idle or leave
    | Do(t: nat, act: Act) | Finish(t: nat)
    | Check(t: nat)                       // idle: stopping, with the next timeout
    | Wake(t: nat)                        // epoll_wait returns; collect the expired timers
    | Post(t: nat)                        // schedule one of their callbacks
    | Handle(t: nat, fd: nat, reported: Mask, hangup: bool, ok: bool)
    | Leave(t: nat)                       // yield from idle

  function PickTask(s: Sys, t: nat): Option<Sys>
    requires t < |s.threads|
  {
    var i := Search(s, t, 0);
    if i == |s.tasks| then None
    else
      var task := s.tasks[i];
      Some(Move(s, t, Holding(task, false)).(
             tasks := s.tasks[..i] + s.tasks[i + 1..], active := s.active + 1,
             wait := if task.work.FiberWork? then s.wait - {task.work.f} else s.wait,
             timed := if task.work.FiberWork? then s.timed - {task.work.f} else s.timed))
  }

  function RestThread(s: Sys, t: nat): Option<Sys>
    requires t < |s.threads|
  {
    if Search(s, t, 0) < |s.tasks| then None
    else if s.threads[t].idleEnded then Some(Move(s, t, Gone))
    else Some(Move(s, t, Top).(idle := s.idle + 1))
  }

  function CheckIdle(s: Sys, t: nat): Sys
    requires t < |s.threads| && T.Known(s.tm.timer, s.tm.order)
  {
    var u := s.(tm := s.tm.(tickled := false));
    if Stopping(s) then u.(threads := s.threads[t := Thread(Ready, true)], idle := s.idle - 1) else Move(u, t, Polling)
  }

  function WakeUp(s: Sys, t: nat): Sys
    requires t < |s.threads| && T.Known(s.tm.timer, s.tm.order)
  {
    var (tm, cbs) := T.ListExpired(s.tm, s.now);
    Move(s.(tm := tm), t, Posting(TimerWorks(cbs)))
  }

  function PostOne(s: Sys, t: nat): Sys
    requires t < |s.threads| && s.threads[t].phase.Posting?
  {
    var works := s.threads[t].phase.works;
    if works == [] then Move(s, t, Handling) else Enqueue(Move(s, t, Posting(works[1..])), [works[0]])
  }

  function ThreadStep(s: Sys, t: nat, step: Step): Option<Sys>
    requires T.Coherent(s.tm) && t < |s.threads|
  {
    var p := s.threads[t].phase;
    match step
    case Pick(_) => if p.Ready? then PickTask(s, t) else None
    case Rest(_) => if p.Ready? then RestThread(s, t) else None
    case Do(_, act) => if p.Holding? && !p.parked then DoAct(s, t, p.task.work, act) else None
    case Finish(_) => if p.Holding? && MayFinish(s, p.task.work) then Some(Move(s, t, Ready).(active := s.active - 1, completed := s.completed + 1)) else None
    case Check(_) => if p.Top? then Some(CheckIdle(s, t)) else None
    case Wake(_) => if p.Polling? then Some(WakeUp(s, t)) else None
    case Post(_) => if p.Posting? then Some(PostOne(s, t)) else None
    case Handle(_, fd, m, hangup, ok) =>
      if p.Handling? && fd < |s.io.fds| && ReportIsCurrent(s.io, fd, m, hangup)
      then Registered(s, Report(fd, m, hangup, ok)) else None
    case Leave(_) => if p.Handling? then Some(Move(s, t, Ready).(idle := s.idle - 1)) else None
    case _ => None
  }

  /** The state after a step, if the step is possible. */
  function Next(s: Sys, step: Step): Option<Sys>
    requires T.Coherent(s.tm)
  {
    match step
    case Advance(ms) => Some(s.(now := s.now + ms))
    case Submit(task) => if s.stop then None else Push(s, task)
    case Halt => Some(s.(stop := true))
    case _ => if step.t < |s.threads| then ThreadStep(s, step.t, step) else None
  }

  /** threads threads that have just entered run, at some time after the machine's start. */
  function Boot(threads: nat, now: nat): Sys {
    Sys([], seq(threads, _ => Thread(Ready, false)), 0, 0, false, 0, 0,
        Start(), T.State(map[], [], false, now), now, map[], map[], map[], 0)
  }
}
