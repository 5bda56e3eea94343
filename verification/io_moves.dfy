/** How far one operation of the IOManager can move its registrations: a step of history that
    the protocol builds on. */
module IoMoves {
  import opened IoEvents

  /** From a to b no registration is made; some waiting ones are scheduled, each as a new woken
      entry with the waiter of its context, or dropped; all others stay as they are. */
  predicate Moves(a: Io, b: Io) {
    && |a.fds| == |b.fds| && |a.fate| == |b.fate| && a.woken <= b.woken
    && (forall fd, e | 0 <= fd < |b.fds| :: CtxAt(b, fd, e).Filled? ==> CtxAt(b, fd, e) == CtxAt(a, fd, e))
    && (forall r | 0 <= r < |b.fate| :: MovedTo(a, b, r))
    && (forall i | |a.woken| <= i < |b.woken| :: Came(a, b, i))
  }

  predicate MovedTo(a: Io, b: Io, r: nat)
    requires r < |a.fate| == |b.fate|
  {
    b.fate[r] == a.fate[r]
    || (a.fate[r].Waiting? && (b.fate[r].Dropped? || (b.fate[r].Scheduled? && |a.woken| <= b.fate[r].index < |b.woken|)))
  }

  /** A new woken entry was waiting before. */
  predicate Came(a: Io, b: Io, i: nat)
    requires i < |b.woken|
  {
    var w := b.woken[i];
    && w.reg < |a.fate| && a.fate[w.reg].Waiting? && a.fate[w.reg].fd < |a.fds|
    && CtxAt(a, a.fate[w.reg].fd, a.fate[w.reg].event) == Filled(w.waiter, w.reg)
  }

  lemma NoMove(a: Io, epoll: map<nat, Mask>)
    ensures Moves(a, a.(epoll := epoll))
  {}

  lemma MovesTwice(a: Io, b: Io, c: Io)
    requires Accounted(a) && Moves(a, b) && Moves(b, c)
    ensures Moves(a, c)
  {
    forall r | 0 <= r < |c.fate| ensures MovedTo(a, c, r) {
      assert MovedTo(a, b, r) && MovedTo(b, c, r);
    }
    forall i | |a.woken| <= i < |c.woken| ensures Came(a, c, i) {
      if i < |b.woken| {
        assert Came(a, b, i);
      } else {
        assert Came(b, c, i);
        assert MovedTo(a, b, c.woken[i].reg);
      }
    }
  }

  lemma ClearedMoves(io: Io, fd: nat, e: Event, f: Fate, woken: seq<Woken>)
    requires Accounted(io) && fd < |io.fds| && Bit(io.fds[fd].events, e)
    requires CtxAt(io, fd, e).Filled? && CtxAt(io, fd, e).reg < |io.fate|
    requires || (f == Dropped && woken == io.woken)
             || (f == Scheduled(|io.woken|) && woken == io.woken + [Woken(CtxAt(io, fd, e).waiter, CtxAt(io, fd, e).reg)])
    ensures Moves(io, Cleared(io, fd, e, f, woken))
  {
    hide Put, BitCount, Waits, Schedules;
    BitIsFilled(io, fd, e);
    PutCleared(io.fds[fd], e);
  }

  lemma TriggerMoves(io: Io, fd: nat, e: Event)
    requires Accounted(io) && fd < |io.fds| && Bit(io.fds[fd].events, e)
    ensures Trigger(io, fd, e).Done? && Accounted(Trigger(io, fd, e).io) && Moves(io, Trigger(io, fd, e).io)
  {
    hide Accounted, Moves, Trigger;
    TriggerKeeps(io, fd, e);
    ClearedMoves(io, fd, e, Scheduled(|io.woken|), io.woken + [Woken(CtxAt(io, fd, e).waiter, CtxAt(io, fd, e).reg)]);
  }

  lemma TriggerAllMoves(io: Io, fd: nat, m: Mask)
    requires Accounted(io) && fd < |io.fds| && Both(io.fds[fd].events, m) == m
    ensures TriggerAll(io, fd, m).Done? && Moves(io, TriggerAll(io, fd, m).io)
  {
    hide Accounted, Moves, Trigger;
    NoMove(io, io.epoll);
    if m.read { TriggerMoves(io, fd, READ); }
    if m.write {
      var mid := if m.read then Trigger(io, fd, READ).io else io;
      WriteBitStays(io, fd);
      TriggerMoves(mid, fd, WRITE);
      MovesTwice(io, mid, Trigger(mid, fd, WRITE).io);
    }
  }

  lemma WriteBitStays(io: Io, fd: nat)
    requires Accounted(io) && fd < |io.fds|
    ensures Bit(io.fds[fd].events, READ) ==>
              var t := Trigger(io, fd, READ);
              t.Done? && |t.io.fds| == |io.fds| && Bit(t.io.fds[fd].events, WRITE) == Bit(io.fds[fd].events, WRITE)
  {
    hide Accounted;
    if Bit(io.fds[fd].events, READ) { TriggerKeeps(io, fd, READ); }
  }

  /** What an operation other than addEvent does. */
  lemma PerformMoves(io: Io, call: Call)
    requires Coherent(io) && !call.Add? && Perform(io, call).Done?
    ensures Coherent(Perform(io, call).io) && Moves(io, Perform(io, call).io)
  {
    hide Coherent, Moves, Perform;
    PerformKeeps(io, call);
    match call
    case Del(fd, e, ok) => DelMoves(io, fd, e, ok);
    case Cancel(fd, e, ok) => CancelMoves(io, fd, e, ok);
    case CancelEvery(fd, ok) => CancelAllMoves(io, fd, ok);
    case Report(fd, m, hangup, ok) => ReportMoves(io, fd, m, hangup, ok);
  }

  lemma DelMoves(io: Io, fd: nat, e: Event, ok: bool)
    requires Coherent(io)
    ensures Perform(io, Del(fd, e, ok)).Done? ==> Moves(io, Perform(io, Del(fd, e, ok)).io)
  {
    hide Accounted, Moves, Put, Cleared;
    TakeOutFits(io, fd, e, ok);
    NoMove(io, io.epoll);
    if ok && fd < |io.fds| && Bit(io.fds[fd].events, e) {
      BitIsFilled(io, fd, e);
      ClearedMoves(io, fd, e, Dropped, io.woken);
      ClearedIs(io, fd, e);
      var mid := Cleared(io, fd, e, Dropped, io.woken);
      var epoll := Refit(io.epoll, fd, WithBit(io.fds[fd].events, e, false));
      NoMove(mid, epoll);
      MovesTwice(io, mid, mid.(epoll := epoll));
    }
  }

  lemma ClearedIs(io: Io, fd: nat, e: Event)
    requires fd < |io.fds| && CtxAt(io, fd, e).Filled? && CtxAt(io, fd, e).reg < |io.fate|
    ensures Cleared(io, fd, e, Dropped, io.woken) ==
            io.(fds := io.fds[fd := Put(io.fds[fd], e, false, Empty)], pending := io.pending - 1,
                fate := io.fate[CtxAt(io, fd, e).reg := Dropped])
  {}

  lemma CancelMoves(io: Io, fd: nat, e: Event, ok: bool)
    requires Coherent(io)
    ensures Perform(io, Cancel(fd, e, ok)).Done? ==> Moves(io, Perform(io, Cancel(fd, e, ok)).io)
  {
    hide Accounted, Moves, Trigger;
    TakeOutFits(io, fd, e, ok);
    NoMove(io, io.epoll);
    if ok && fd < |io.fds| && Bit(io.fds[fd].events, e) {
      var epoll := Refit(io.epoll, fd, WithBit(io.fds[fd].events, e, false));
      AccountsIgnoreEpoll(io, epoll);
      NoMove(io, epoll);
      TriggerMoves(io.(epoll := epoll), fd, e);
      MovesTwice(io, io.(epoll := epoll), Trigger(io.(epoll := epoll), fd, e).io);
    }
  }

  lemma CancelAllMoves(io: Io, fd: nat, ok: bool)
    requires Coherent(io)
    ensures Perform(io, CancelEvery(fd, ok)).Done? ==> Moves(io, Perform(io, CancelEvery(fd, ok)).io)
  {
    hide Accounted, Moves, TriggerAll;
    NoMove(io, io.epoll);
    if fd < |io.fds| && io.fds[fd].events != NONE {
      OperationFits(io, fd, NONE, ok);
      if ok { TakenThenTriggered(io, fd, Refit(io.epoll, fd, NONE), io.fds[fd].events); }
    }
  }

  lemma TakenThenTriggered(io: Io, fd: nat, epoll: map<nat, Mask>, m: Mask)
    requires Accounted(io) && fd < |io.fds| && Both(io.fds[fd].events, m) == m
    ensures var t := TriggerAll(io.(epoll := epoll), fd, m); t.Done? && Moves(io, t.io)
  {
    hide Accounted, Moves, TriggerAll;
    AccountsIgnoreEpoll(io, epoll);
    NoMove(io, epoll);
    TriggerAllMoves(io.(epoll := epoll), fd, m);
    MovesTwice(io, io.(epoll := epoll), TriggerAll(io.(epoll := epoll), fd, m).io);
  }

  lemma ReportMoves(io: Io, fd: nat, m: Mask, hangup: bool, ok: bool)
    requires Coherent(io)
    ensures var t := Perform(io, Report(fd, m, hangup, ok)); t.Done? ==> Moves(io, t.io)
  {
    hide Accounted, Moves, TriggerAll;
    NoMove(io, io.epoll);
    if fd < |io.fds| {
      HandleKeeps(io, fd, m, hangup, ok);
      var events := io.fds[fd].events;
      var hit := RealEvents(events, m, hangup);
      if Both(events, hit) != NONE {
        OperationFits(io, fd, Without(events, hit), ok);
        if ok && Both(events, hit) == hit { TakenThenTriggered(io, fd, Refit(io.epoll, fd, Without(events, hit)), hit); }
      }
    }
  }

  /** What addEvent does when the kernel agrees: one context more, all others as they were. */
  lemma AddMoves(io: Io, fd: nat, e: Event, w: Waiter, ok: bool)
    requires Coherent(io) && AddEvent(io, fd, e, w, ok).0.Done?
    ensures var b := AddEvent(io, fd, e, w, ok).0.io;
            && Coherent(b) && |io.fds| <= |b.fds| && b.woken == io.woken
            && b.fate == (if ok then io.fate + [Waiting(fd, e)] else io.fate)
            && (forall fd', e' | 0 <= fd' < |b.fds| && CtxAt(b, fd', e').Filled? ::
                  || (ok && fd' == fd && e' == e && CtxAt(b, fd, e) == Filled(w, |io.fate|))
                  || (fd' < |io.fds| && CtxAt(b, fd', e') == CtxAt(io, fd', e')))
  {
    AddKeeps(io, fd, e, w, ok);
    hide Accounted, Grow, EpollMatches, Coherent;
    GrownIsFresh(io, fd);
  }

  lemma GrownIsFresh(io: Io, fd: nat)
    requires Coherent(io)
    ensures var fds := Grow(io.fds, fd);
            && |io.fds| <= |fds| && fd < |fds|
            && (forall i | 0 <= i < |fds| :: fds[i] == if i < |io.fds| then io.fds[i] else FRESH)
  {
    hide Accounted;
  }
}
