/** The scheduler on its own, without events and timers: its threads run the same loop, its idle
    fiber only asks whether the scheduler is stopping. */
module BaseScheduler {
  import opened Options
  import opened Protocol
  import opened ProtocolSafety

  /** Scheduler::stopping. */
  predicate BaseStopping(s: Sys) { s.stop && s.tasks == [] && s.active == 0 }

  /** idle: yield, over and over, until stopping. */
  function BaseIdle(s: Sys, t: nat): Sys
    requires t < |s.threads|
  {
    s.(threads := s.threads[t := Thread(Ready, BaseStopping(s))], idle := s.idle - 1)
  }

  function BaseThreadStep(s: Sys, t: nat, step: Step): Option<Sys>
    requires t < |s.threads|
  {
    var p := s.threads[t].phase;
    match step
    case Pick(_) => if p.Ready? then PickTask(s, t) else None
    case Rest(_) => if p.Ready? then RestThread(s, t) else None
    case Do(_, Schedule(task)) => if p.Holding? then Push(s, task) else None
    case Finish(_) => if p.Holding? then Some(Move(s, t, Ready).(active := s.active - 1, completed := s.completed + 1)) else None
    case Check(_) => if p.Top? then Some(BaseIdle(s, t)) else None
    case _ => None
  }

  function BaseNext(s: Sys, step: Step): Option<Sys> {
    match step
    case Submit(task) => if s.stop then None else Push(s, task)
    case Halt => Some(s.(stop := true))
    case Pick(t) => if t < |s.threads| then BaseThreadStep(s, t, step) else None
    case Rest(t) => if t < |s.threads| then BaseThreadStep(s, t, step) else None
    case Do(t, _) => if t < |s.threads| then BaseThreadStep(s, t, step) else None
    case Finish(t) => if t < |s.threads| then BaseThreadStep(s, t, step) else None
    case Check(t) => if t < |s.threads| then BaseThreadStep(s, t, step) else None
    case _ => None
  }

  function BaseRun(s: Sys, steps: seq<Step>): Option<Sys> {
    if steps == [] then Some(s)
    else match BaseRun(s, steps[..|steps| - 1])
      case Some(u) => BaseNext(u, steps[|steps| - 1])
      case None => None
  }

  /** The active count is right, and an idle fiber ends only when the scheduler is stopping. */
  ghost predicate BaseInv(s: Sys) {
    && s.active == NumHolding(s.threads) && s.submitted == |s.tasks| + NumHolding(s.threads) + s.completed
    && (forall t | 0 <= t < |s.threads| :: s.threads[t].phase.Gone? ==> s.threads[t].idleEnded)
    && (forall t | 0 <= t < |s.threads| && s.threads[t].idleEnded :: BaseStopping(s))
  }

  lemma BaseBoot(threads: nat, now: nat)
    ensures BaseInv(Boot(threads, now))
  {
    NoneHolds(Boot(threads, now).threads);
  }

  /** stopping stays true through every step. */
  lemma StoppingStays(s: Sys, step: Step)
    requires BaseInv(s) && BaseStopping(s) && BaseNext(s, step).Some?
    ensures BaseStopping(BaseNext(s, step).value)
  {
    NoneHolds(s.threads);
  }

  lemma BasePickKeeps(s: Sys, t: nat)
    requires BaseInv(s) && t < |s.threads| && s.threads[t].phase.Ready? && PickTask(s, t).Some?
    ensures BaseInv(PickTask(s, t).value)
  {
    hide NumHolding;
    NumUpdate(s.threads, t, PickTask(s, t).value.threads[t]);
  }

  /** Thread t goes on without a task, after finishing one or not. */
  lemma BaseThreadMoves(s: Sys, u: Sys, t: nat)
    requires BaseInv(s) && t < |s.threads| == |u.threads| && !u.threads[t].phase.Holding?
    requires u.threads == s.threads[t := u.threads[t]] && u.tasks == s.tasks && u.stop == s.stop && u.submitted == s.submitted
    requires var done := if s.threads[t].phase.Holding? then 1 else 0;
             u.active == s.active - done && u.completed == s.completed + done
    requires u.threads[t].phase.Gone? ==> u.threads[t].idleEnded
    requires u.threads[t].idleEnded ==> s.threads[t].idleEnded || BaseStopping(s)
    ensures BaseInv(u)
  {
    hide NumHolding;
    NumUpdate(s.threads, t, u.threads[t]);
    if BaseStopping(s) { NoneHolds(s.threads); }
    forall v | 0 <= v < |u.threads| && u.threads[v].idleEnded ensures BaseStopping(u) {
      assert v != t ==> s.threads[v].idleEnded;
    }
  }

  lemma BaseNextKeeps(s: Sys, step: Step)
    requires BaseInv(s) && BaseNext(s, step).Some?
    ensures BaseInv(BaseNext(s, step).value)
  {
    hide NumHolding, PickTask, Search;
    var u := BaseNext(s, step).value;
    match step
    case Pick(t) => BasePickKeeps(s, t);
    case Rest(t) => BaseThreadMoves(s, u, t);
    case Finish(t) => BaseThreadMoves(s, u, t);
    case Check(t) => BaseThreadMoves(s, u, t);
    case _ => NoneHolds(s.threads);
  }

  lemma {:induction false} BaseRunKeeps(s: Sys, steps: seq<Step>)
    requires BaseInv(s) && BaseRun(s, steps).Some?
    ensures BaseInv(BaseRun(s, steps).value)
  {
    hide BaseInv, BaseNext;
    if steps != [] {
      BaseRunKeeps(s, steps[..|steps| - 1]);
      BaseNextKeeps(BaseRun(s, steps[..|steps| - 1]).value, steps[|steps| - 1]);
    }
  }

  /** Over every run: once stopping was true it is true for ever. */
  lemma {:induction false} BaseStoppingIsStable(threads: nat, now: nat, steps: seq<Step>, i: nat)
    requires i <= |steps| && BaseRun(Boot(threads, now), steps).Some?
    ensures BaseRun(Boot(threads, now), steps[..i]).Some?
    ensures BaseStopping(BaseRun(Boot(threads, now), steps[..i]).value) ==> BaseStopping(BaseRun(Boot(threads, now), steps).value)
    decreases |steps|
  {
    hide BaseInv, BaseNext, BaseStopping, Boot;
    var n := |steps|;
    if i == n {
      assert steps[..i] == steps;
    } else {
      BaseStoppingIsStable(threads, now, steps[..n - 1], i);
      assert steps[..n - 1][..i] == steps[..i];
      BaseBoot(threads, now);
      BaseRunKeeps(Boot(threads, now), steps[..n - 1]);
      var u := BaseRun(Boot(threads, now), steps[..n - 1]).value;
      if BaseStopping(u) { StoppingStays(u, steps[n - 1]); }
    }
  }

  /** Over every run: once one idle fiber has ended, and so once a thread has left run, nothing is
      queued, no task runs and every task submitted was completed. */
  lemma BaseCleanShutdown(threads: nat, now: nat, steps: seq<Step>, t: nat)
    requires BaseRun(Boot(threads, now), steps).Some? && t < |BaseRun(Boot(threads, now), steps).value.threads|
    ensures var s := BaseRun(Boot(threads, now), steps).value;
            s.threads[t].idleEnded || s.threads[t].phase.Gone? ==>
              s.tasks == [] && s.completed == s.submitted && forall u | 0 <= u < |s.threads| :: !s.threads[u].phase.Holding?
  {
    BaseBoot(threads, now);
    BaseRunKeeps(Boot(threads, now), steps);
    NoneHolds(BaseRun(Boot(threads, now), steps).value.threads);
  }
}
