/** The scheduler's queue as an object: schedule, and the scan of run under the lock. */
module Schedulers {
  import opened Options
  import opened Protocol

  /** What a thread may take: tasks for any thread or for itself, but no fiber that runs. */
  predicate CanTake(task: Task, thread: int, running: set<nat>) {
    (task.thread == -1 || task.thread == thread) && !(task.work.FiberWork? && task.work.f in running)
  }

  predicate Elsewhere(task: Task, thread: int) { task.thread != -1 && task.thread != thread }

  class Scheduler {
    var tasks: seq<Task>
    var activeThreadCount: int
    var stop: bool

    constructor ()
      ensures tasks == [] && activeThreadCount == 0 && !stop
    {
      tasks, activeThreadCount, stop := [], 0, false;
    }

    /** An empty task is not queued; the caller tickles if the queue was empty. */
    method ScheduleNoLock(task: Option<Task>) returns (needTickle: bool)
      modifies `tasks
      ensures needTickle <==> old(tasks) == []
      ensures tasks == if task.Some? then old(tasks) + [task.value] else old(tasks)
    {
      needTickle := tasks == [];
      if task.Some? {
        tasks := tasks + [task.value];
      }
    }

    /** The first task the thread can take, out of the queue; the others keep their order. The
        thread tickles if it skipped a task of another thread or left tasks behind the one taken. */
    method Take(thread: int, running: set<nat>) returns (task: Option<Task>, tickleMe: bool, ghost at: nat)
      modifies `tasks, `activeThreadCount
      ensures at <= |old(tasks)| && forall j | 0 <= j < at :: !CanTake(old(tasks)[j], thread, running)
      ensures task.Some? <==> at < |old(tasks)|
      ensures task.Some? ==>
                && task.value == old(tasks)[at] && CanTake(task.value, thread, running)
                && tasks == old(tasks)[..at] + old(tasks)[at + 1..] && activeThreadCount == old(activeThreadCount) + 1
      ensures task.None? ==> tasks == old(tasks) && activeThreadCount == old(activeThreadCount)
      ensures tickleMe <==> (exists j | 0 <= j < at :: Elsewhere(old(tasks)[j], thread)) || at + 1 < |old(tasks)|
    {
      task, tickleMe := None, false;
      var it := 0;
      while it < |tasks|
        invariant 0 <= it <= |tasks| && tasks == old(tasks) && activeThreadCount == old(activeThreadCount) && task.None?
        invariant forall j | 0 <= j < it :: !CanTake(tasks[j], thread, running)
        invariant tickleMe <==> exists j | 0 <= j < it :: Elsewhere(tasks[j], thread)
      {
        if tasks[it].thread != -1 && tasks[it].thread != thread {
          assert Elsewhere(tasks[it], thread);
          it := it + 1;
          tickleMe := true;
          continue;
        }
        if tasks[it].work.FiberWork? && tasks[it].work.f in running {
          it := it + 1;
          continue;
        }
        task := Some(tasks[it]);
        tasks := tasks[..it] + tasks[it + 1..];
        activeThreadCount := activeThreadCount + 1;
        at := it;
        tickleMe := tickleMe || it < |tasks|;
        return;
      }
      at := it;
    }

    method Stopping() returns (r: bool)
      ensures r <==> stop && tasks == [] && activeThreadCount == 0
    {
      r := stop && tasks == [] && activeThreadCount == 0;
    }
  }

  /** The scan finds the task that a step of the protocol picks. */
  lemma TakeIsPick(s: Sys, t: nat, running: set<nat>, at: nat)
    requires at <= |s.tasks| && (forall f :: f in running <==> Running(s, f))
    requires forall j | 0 <= j < at :: !CanTake(s.tasks[j], t, running)
    requires at < |s.tasks| ==> CanTake(s.tasks[at], t, running)
    ensures Search(s, t, 0) == at
  {
    hide Search, Running;
    assert forall j | 0 <= j < |s.tasks| :: Eligible(s, t, s.tasks[j]) <==> CanTake(s.tasks[j], t, running);
  }
}
