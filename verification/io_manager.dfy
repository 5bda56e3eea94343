/** The IOManager as an object: its methods against the functions of IoEvents. */
module IoManagers {
  import opened IoEvents
  import E = IoEvents

  /** An entry of what epoll_wait reports: the tickle pipe, or a descriptor. */
  datatype Ready = TickleReady | FdReady(fd: nat, reported: Mask, hangup: bool, ok: bool)

  function HandleOne(io: Io, r: Ready): Result {
    match r
    case TickleReady => Done(io)
    case FdReady(fd, m, hangup, ok) => if fd < |io.fds| then Handle(io, fd, m, hangup, ok) else AssertFailed
  }

  function HandleAll(io: Io, reports: seq<Ready>): Result
    decreases |reports|
  {
    if reports == [] then Done(io)
    else match HandleOne(io, reports[0])
      case Done(next) => HandleAll(next, reports[1..])
      case AssertFailed => AssertFailed
  }

  /** Each report is about a known descriptor and current when its turn comes. */
  predicate CurrentAll(io: Io, reports: seq<Ready>)
    decreases |reports|
  {
    reports == [] ||
    (&& (reports[0].FdReady? ==>
           reports[0].fd < |io.fds| && ReportIsCurrent(io, reports[0].fd, reports[0].reported, reports[0].hangup))
     && HandleOne(io, reports[0]).Done? && CurrentAll(HandleOne(io, reports[0]).io, reports[1..]))
  }

  class IoManager {
    var fdContexts: seq<FdContext>
    var epoll: map<nat, Mask>
    var pendingEventCount: int
    /** What was handed to schedule so far, and what became of each registration: records that
        the source does not keep. */
    var scheduled: seq<Woken>
    var fate: seq<Fate>

    function State(): Io
      reads this
    {
      Io(fdContexts, epoll, pendingEventCount, scheduled, fate)
    }

    constructor ()
      ensures State() == Start() && Coherent(State())
    {
      fdContexts := seq(32, _ => FRESH);
      epoll := map[];
      pendingEventCount := 0;
      scheduled := [];
      fate := [];
      new;
      StartCoherent();
    }

    method ContextResize(size: nat)
      modifies `fdContexts
      ensures fdContexts == if size <= |old(fdContexts)| then old(fdContexts)[..size]
                            else old(fdContexts) + seq(size - |old(fdContexts)|, _ => FRESH)
    {
      if size <= |fdContexts| {
        fdContexts := fdContexts[..size];
      }
      ghost var kept := fdContexts;
      while |fdContexts| < size
        invariant |fdContexts| >= |kept| && fdContexts == kept + seq(|fdContexts| - |kept|, _ => FRESH)
        invariant |kept| <= size ==> |fdContexts| <= size
        decreases size - |fdContexts|
      {
        fdContexts := fdContexts + [FRESH];
      }
    }

    method EpollCtl(op: Op, fd: nat, m: Mask, ok: bool) returns (done: bool)
      modifies `epoll
      ensures E.EpollCtl(old(epoll), op, fd, m, ok) == (done, epoll) && (!done ==> epoll == old(epoll))
    {
      done := ok && (op == ADD) == (fd !in epoll);
      if done {
        epoll := if op == DEL then epoll - {fd} else epoll[fd := m];
      }
    }

    /** The bit goes first, then the waiter is scheduled, then the context is reset. */
    method TriggerEvent(fd: nat, event: Event)
      requires Accounted(State()) && fd < |fdContexts| && Bit(fdContexts[fd].events, event)
      modifies `fdContexts, `scheduled, `fate
      ensures Trigger(old(State()), fd, event) == Done(State().(pending := pendingEventCount - 1))
    {
      TriggerKeeps(State(), fd, event);
      var ctx := GetEventContext(fdContexts[fd], event);
      fate := fate[ctx.reg := Scheduled(|scheduled|)];
      fdContexts := fdContexts[fd := fdContexts[fd].(events := WithBit(fdContexts[fd].events, event, false))];
      scheduled := scheduled + [Woken(ctx.waiter, ctx.reg)];
      fdContexts := fdContexts[fd := if event == READ then fdContexts[fd].(read := Empty) else fdContexts[fd].(write := Empty)];
    }

    /** Sets the bits of a descriptor, then one of its contexts. */
    method SetEvent(fd: nat, event: Event, on: bool, ctx: Ctx)
      requires fd < |fdContexts|
      modifies `fdContexts
      ensures fdContexts == old(fdContexts)[fd := Put(old(fdContexts)[fd], event, on, ctx)]
    {
      fdContexts := fdContexts[fd := fdContexts[fd].(events := WithBit(fdContexts[fd].events, event, on))];
      fdContexts := fdContexts[fd := if event == READ then fdContexts[fd].(read := ctx) else fdContexts[fd].(write := ctx)];
    }

    method AddEvent(fd: nat, event: Event, waiter: Waiter, ok: bool) returns (rt: int)
      requires Coherent(State()) && (fd < |fdContexts| ==> !Bit(fdContexts[fd].events, event))
      modifies this
      ensures Coherent(State()) && E.AddEvent(old(State()), fd, event, waiter, ok) == (Done(State()), rt)
    {
      hide Coherent, Put, E.EpollCtl;
      AddKeeps(State(), fd, event, waiter, ok);
      if |fdContexts| <= fd {
        ContextResize(fd * 3 / 2);
      }
      var op := if fdContexts[fd].events != NONE then MOD else ADD;
      var done := EpollCtl(op, fd, WithBit(fdContexts[fd].events, event, true), ok);
      if !done {
        return -1;
      }
      pendingEventCount := pendingEventCount + 1;
      SetEvent(fd, event, true, Filled(waiter, |fate|));
      fate := fate + [Waiting(fd, event)];
      rt := 0;
    }

    method DelEvent(fd: nat, event: Event, ok: bool) returns (done: bool)
      requires Coherent(State())
      modifies this
      ensures Coherent(State()) && E.DelEvent(old(State()), fd, event, ok) == (Done(State()), done)
    {
      hide Coherent, Put, E.EpollCtl;
      DelKeeps(State(), fd, event, ok);
      if |fdContexts| <= fd || !Bit(fdContexts[fd].events, event) {
        return false;
      }
      var left := WithBit(fdContexts[fd].events, event, false);
      done := EpollCtl(if left != NONE then MOD else DEL, fd, left, ok);
      if !done {
        return false;
      }
      pendingEventCount := pendingEventCount - 1;
      fate := fate[GetEventContext(fdContexts[fd], event).reg := Dropped];
      SetEvent(fd, event, false, Empty);
    }

    method CancelEvent(fd: nat, event: Event, ok: bool) returns (done: bool)
      requires Coherent(State())
      modifies this
      ensures Coherent(State()) && E.CancelEvent(old(State()), fd, event, ok) == (Done(State()), done)
    {
      CancelKeeps(State(), fd, event, ok);
      CanTrigger(State(), fd, event);
      hide Coherent, Accounted, Trigger;
      if |fdContexts| <= fd || !Bit(fdContexts[fd].events, event) {
        return false;
      }
      var left := WithBit(fdContexts[fd].events, event, false);
      done := EpollCtl(if left != NONE then MOD else DEL, fd, left, ok);
      if !done {
        return false;
      }
      TriggerEvent(fd, event);
      pendingEventCount := pendingEventCount - 1;
    }

    method CancelAll(fd: nat, ok: bool) returns (done: bool)
      requires Coherent(State())
      modifies this
      ensures Coherent(State()) && E.CancelAll(old(State()), fd, ok) == (Done(State()), done)
    {
      hide Coherent, Accounted, Trigger, TriggerAll;
      CancelAllKeeps(State(), fd, ok);
      CanTrigger(State(), fd, READ);
      if |fdContexts| <= fd || fdContexts[fd].events == NONE {
        return false;
      }
      done := EpollCtl(DEL, fd, NONE, ok);
      if !done {
        return false;
      }
      TriggerSet(fd, fdContexts[fd].events);
    }

    /** The two triggers that cancelAll and the idle loop end with. */
    method TriggerSet(fd: nat, m: Mask)
      requires Accounted(State()) && fd < |fdContexts| && Both(fdContexts[fd].events, m) == m
      modifies this
      ensures TriggerAll(old(State()), fd, m) == Done(State())
    {
      hide Accounted, Trigger;
      TriggerAllKeeps(State(), fd, m);
      if m.read {
        StillSet(State(), fd);
        TriggerEvent(fd, READ);
        pendingEventCount := pendingEventCount - 1;
      }
      if m.write {
        TriggerEvent(fd, WRITE);
        pendingEventCount := pendingEventCount - 1;
      }
    }

    lemma StillSet(io: Io, fd: nat)
      requires Accounted(io) && fd < |io.fds| && Bit(io.fds[fd].events, READ)
      ensures var t := Trigger(io, fd, READ);
              t.Done? && Accounted(t.io) && |t.io.fds| == |io.fds|
              && Bit(t.io.fds[fd].events, WRITE) == Bit(io.fds[fd].events, WRITE)
    {
      hide Accounted;
      TriggerKeeps(io, fd, READ);
    }

    lemma CanTrigger(io: Io, fd: nat, e: Event)
      requires Coherent(io)
      ensures forall epoll :: Accounted(io.(epoll := epoll))
    {
      hide Accounted;
      forall epoll ensures Accounted(io.(epoll := epoll)) { AccountsIgnoreEpoll(io, epoll); }
    }

    /** The loop of idle over what epoll_wait reported. */
    method HandleEvents(reports: seq<Ready>)
      requires Coherent(State()) && CurrentAll(State(), reports)
      modifies this
      ensures Coherent(State()) && HandleAll(old(State()), reports) == Done(State())
    {
      hide Coherent, Handle;
      var i := 0;
      while i < |reports|
        invariant 0 <= i <= |reports| && Coherent(State()) && CurrentAll(State(), reports[i..])
        invariant HandleAll(State(), reports[i..]) == HandleAll(old(State()), reports)
      {
        assert reports[i..][1..] == reports[i + 1..];
        if reports[i].FdReady? {
          HandleEvent(reports[i].fd, reports[i].reported, reports[i].hangup, reports[i].ok);
        }
        i := i + 1;
      }
    }

    method HandleEvent(fd: nat, reported: Mask, hangup: bool, ok: bool)
      requires Coherent(State()) && fd < |fdContexts| && ReportIsCurrent(State(), fd, reported, hangup)
      modifies this
      ensures Coherent(State()) && Handle(old(State()), fd, reported, hangup, ok) == Done(State())
    {
      hide Coherent, Accounted, TriggerAll, HandleAll;
      HandleKeeps(State(), fd, reported, hangup, ok);
      CanTrigger(State(), fd, READ);
      var events := fdContexts[fd].events;
      var hit := reported;
      if hangup {
        hit := Mask(reported.read || events.read, reported.write || events.write);
      }
      if Both(events, hit) == NONE {
        return;
      }
      var left := Without(events, hit);
      var done := EpollCtl(if left != NONE then MOD else DEL, fd, left, ok);
      if done {
        TriggerSet(fd, hit);
      }
    }
  }
}
