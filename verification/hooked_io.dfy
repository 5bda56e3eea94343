/** One hooked system call: it is asked again until it has an answer, and the fiber waits in
    between. What other threads do to a wait is in Protocol; here it is what one call sees of it. */
module HookedIo {
  import opened Options

  /** What the original function returns. */
  datatype Answer = Bytes(n: nat) | Interrupted | Again | Failed(errno: nat)

  /** What becomes of one wait: the event cannot be added, or the fiber is resumed. timedOut: by
      then the timeout callback of this wait has run. late: it was collected by then and runs
      between the look at the mark after this wait and the one after the next. */
  datatype Wait = Refused(errno: nat) | Resumed(timedOut: bool, late: bool)

  /** Waiting stands for a call that has not returned yet. */
  datatype Result = Returned(n: nat) | Error(errno: nat) | Waiting

  const EINTR: nat := 4
  const EBADF: nat := 9
  const EAGAIN: nat := 11
  const ETIMEDOUT: nat := 110

  datatype Descriptor = Descriptor(closed: bool, socket: bool, userNonblock: bool, timeout: Option<nat>)

  function ResultOf(a: Answer): Result {
    match a
    case Bytes(n) => Returned(n)
    case Interrupted => Error(EINTR)
    case Again => Error(EAGAIN)
    case Failed(e) => Error(e)
  }

  /** Whether the call waits at all. */
  predicate Waits(hooked: bool, ctx: Option<Descriptor>) {
    hooked && ctx.Some? && !ctx.value.closed && ctx.value.socket && !ctx.value.userNonblock
  }

  function Agains(answers: seq<Answer>): nat {
    if answers == [] then 0 else Agains(answers[..|answers| - 1]) + (if answers[|answers| - 1] == Again then 1 else 0)
  }

  lemma AgainsSnoc(answers: seq<Answer>, k: nat)
    requires k < |answers|
    ensures Agains(answers[..k + 1]) == Agains(answers[..k]) + (if answers[k] == Again then 1 else 0)
  {
    assert answers[..k + 1][..k] == answers[..k];
  }

  /** The callback of the last of n waits runs late. */
  predicate Late(waits: seq<Wait>, n: nat, timed: bool)
    requires n <= |waits|
  {
    timed && n > 0 && waits[n - 1].Resumed? && waits[n - 1].late
  }

  /** After the last of n waits the call is marked as timed out: the callback of that wait has run,
      or that of the wait before, late. */
  predicate Marked(waits: seq<Wait>, n: nat, timed: bool)
    requires n <= |waits|
  {
    timed && n > 0 && ((waits[n - 1].Resumed? && waits[n - 1].timedOut) || Late(waits, n - 1, timed))
  }

  /** The call looks at the mark after the last of n waits, and finds it. */
  predicate TimedOut(waits: seq<Wait>, n: nat, timed: bool)
    requires n <= |waits|
  {
    n > 0 && waits[n - 1].Resumed? && Marked(waits, n, timed)
  }

  /** A call that waited goes on only after a wait that was not refused and that left no mark. */
  predicate OnlyResumed(waits: seq<Wait>, n: nat, timed: bool)
    requires n <= |waits|
  {
    forall i | 0 <= i < n :: waits[i].Resumed? && !Marked(waits, i + 1, timed)
  }

  lemma NoWaitYet(waits: seq<Wait>, timed: bool)
    ensures OnlyResumed(waits, 0, timed)
  {}

  lemma OneWaitMore(waits: seq<Wait>, n: nat, timed: bool)
    requires n < |waits| && OnlyResumed(waits, n, timed) && waits[n].Resumed? && !Marked(waits, n + 1, timed)
    ensures OnlyResumed(waits, n + 1, timed)
  {}

  lemma LastWait(waits: seq<Wait>, n: nat, timed: bool)
    requires n <= |waits| && OnlyResumed(waits, n, timed)
    ensures n > 0 ==> OnlyResumed(waits, n - 1, timed) && waits[n - 1].Resumed? && !Marked(waits, n, timed)
  {}

  class Call {
    /** tinfo->cancelled is ETIMEDOUT. */
    var cancelled: bool
    /** The timer of the present wait is in the timer manager. */
    var armed: bool
    /** How often the function was asked, and how often the fiber waited. */
    var asked: nat
    var waited: nat

    constructor ()
      ensures !cancelled && !armed && asked == 0 && waited == 0
    {
      cancelled, armed, asked, waited := false, false, 0, 0;
    }

    /** do_io, as far as the answers and the waits given go. A call that waits returns what the
        first answer other than EINTR and EAGAIN says, unless a wait before it failed; each EAGAIN
        is one wait; no timer is left behind; and the error is ETIMEDOUT exactly if the call was
        marked when it looked after its last wait, or the function (or the registration) failed
        with that very error. A mark that comes after the last look changes nothing. */
    method DoIo(hooked: bool, ctx: Option<Descriptor>, answers: seq<Answer>, waits: seq<Wait>) returns (r: Result)
      requires !cancelled && !armed && asked == 0 && waited == 0
      modifies this
      ensures asked <= |answers| && waited <= |waits|
      ensures ctx.Some? && hooked && ctx.value.closed ==> r == Error(EBADF) && asked == 0 && waited == 0
      ensures !hooked || ctx.None? || (!ctx.value.closed && !Waits(hooked, ctx)) ==>
                waited == 0 && r == (if answers == [] then Waiting else ResultOf(answers[0]))
      ensures Waits(hooked, ctx) ==>
                var timed := ctx.value.timeout.Some?;
                && (r != Waiting ==> !armed)
                && (waited > 0 ==> OnlyResumed(waits, waited - 1, timed))
                && (cancelled <==> Marked(waits, waited, timed) || Late(waits, waited, timed))
                && (forall i | 0 <= i < asked - 1 :: answers[i] == Interrupted || answers[i] == Again)
                && (r.Returned? <==> asked > 0 && answers[asked - 1].Bytes?)
                && (r.Returned? ==> answers[asked - 1] == Bytes(r.n))
                && (r.Error? <==>
                      || (asked > 0 && answers[asked - 1].Failed?) || (waited > 0 && waits[waited - 1].Refused?)
                      || TimedOut(waits, waited, timed))
                && (r == Error(ETIMEDOUT) <==>
                      || TimedOut(waits, waited, timed) || (asked > 0 && answers[asked - 1] == Failed(ETIMEDOUT))
                      || (waited > 0 && waits[waited - 1] == Refused(ETIMEDOUT)))
                && (r == Waiting ==> asked == |answers| || (waited == |waits| && asked > 0 && answers[asked - 1] == Again))
                && (r != Waiting ==> waited == Agains(answers[..asked]))
    {
      hide OnlyResumed;
      if !hooked || ctx.None? {
        r := Once(answers);
        return;
      }
      if ctx.value.closed {
        return Error(EBADF);
      }
      if !ctx.value.socket || ctx.value.userNonblock {
        r := Once(answers);
        return;
      }
      var timed := ctx.value.timeout.Some?;
      NoWaitYet(waits, timed);
      while asked < |answers|
        invariant asked <= |answers| && waited <= |waits| && !armed
        invariant cancelled == Late(waits, waited, timed)
        invariant OnlyResumed(waits, waited, timed)
        invariant forall i | 0 <= i < asked :: answers[i] == Interrupted || answers[i] == Again
        invariant waited == Agains(answers[..asked])
      {
        LastWait(waits, waited, timed);
        var n := Ask(answers);
        if n == Interrupted {
          return Waiting;
        }
        if n != Again {
          return ResultOf(n);
        }
        armed := timed;
        if waited == |waits| {
          return Waiting;
        }
        var w := waits[waited];
        waited := waited + 1;
        if w.Refused? {
          armed := false;
          return Error(w.errno);
        }
        // the fiber yields, and the timeout callback may run before it is resumed
        cancelled := cancelled || (timed && w.timedOut);
        armed := false;
        if cancelled {
          return Error(ETIMEDOUT);
        }
        OneWaitMore(waits, waited - 1, timed);
        // a callback collected before the timer was cancelled
        cancelled := timed && w.late;
      }
      LastWait(waits, waited, timed);
      r := Waiting;
    }

    /** Asks until the answer is not EINTR, or there are no more answers. */
    method Ask(answers: seq<Answer>) returns (n: Answer)
      requires asked < |answers|
      modifies `asked
      ensures old(asked) < asked <= |answers| && n == answers[asked - 1]
      ensures forall i | old(asked) <= i < asked - 1 :: answers[i] == Interrupted
      ensures n == Interrupted ==> asked == |answers|
      ensures Agains(answers[..asked]) == Agains(answers[..old(asked)]) + (if n == Again then 1 else 0)
    {
      AgainsSnoc(answers, asked);
      n := answers[asked];
      asked := asked + 1;
      while n == Interrupted && asked < |answers|
        invariant old(asked) < asked <= |answers| && n == answers[asked - 1]
        invariant forall i | old(asked) <= i < asked - 1 :: answers[i] == Interrupted
        invariant Agains(answers[..asked]) == Agains(answers[..old(asked)]) + (if n == Again then 1 else 0)
      {
        AgainsSnoc(answers, asked);
        n := answers[asked];
        asked := asked + 1;
      }
    }

    /** The function as it is, with no waiting. */
    method Once(answers: seq<Answer>) returns (r: Result)
      requires asked == 0
      modifies `asked
      ensures asked <= |answers|
      ensures r == if answers == [] then Waiting else ResultOf(answers[0])
    {
      if answers == [] {
        return Waiting;
      }
      asked := 1;
      r := ResultOf(answers[0]);
    }
  }
}
