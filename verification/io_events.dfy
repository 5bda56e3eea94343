/** File-descriptor events of the IOManager: the bits of each descriptor, the waiter behind each
    bit, the interest set of epoll and the pending counter. */
module IoEvents {
  datatype Event = READ | WRITE
  datatype Mask = Mask(read: bool, write: bool)
  const NONE := Mask(false, false)

  /** What an event wakes: a fiber or a callback. */
  datatype Waiter = Fiber(id: nat) | Callback(id: nat)

  /** EventContext. reg numbers the registration; the numbering is not in the source. */
  datatype Ctx = Empty | Filled(waiter: Waiter, reg: nat)
  datatype FdContext = FdContext(events: Mask, read: Ctx, write: Ctx)
  const FRESH := FdContext(NONE, Empty, Empty)

  datatype Op = ADD | MOD | DEL

  /** What became of a registration: it is still there, it was scheduled (as which entry of
      woken), or it was deleted without firing. */
  datatype Fate = Waiting(fd: nat, event: Event) | Scheduled(index: nat) | Dropped
  datatype Woken = Woken(waiter: Waiter, reg: nat)

  /** woken lists what triggerEvent handed to schedule, in order; fate is history. */
  datatype Io = Io(fds: seq<FdContext>, epoll: map<nat, Mask>, pending: int, woken: seq<Woken>, fate: seq<Fate>)

  function Start(): Io { Io(seq(32, _ => FRESH), map[], 0, [], []) }

  // ---- bits and contexts ---------------------------------------------------------------

  function Bit(m: Mask, e: Event): bool { if e == READ then m.read else m.write }
  function WithBit(m: Mask, e: Event, on: bool): Mask { if e == READ then m.(read := on) else m.(write := on) }
  function Both(m: Mask, n: Mask): Mask { Mask(m.read && n.read, m.write && n.write) }
  function Without(m: Mask, n: Mask): Mask { Mask(m.read && !n.read, m.write && !n.write) }

  function GetEventContext(c: FdContext, e: Event): Ctx { if e == READ then c.read else c.write }

  function Put(c: FdContext, e: Event, on: bool, ctx: Ctx): FdContext {
    var d := c.(events := WithBit(c.events, e, on));
    if e == READ then d.(read := ctx) else d.(write := ctx)
  }

  /** epoll_ctl: refuses to add what is there or to change what is not; ok is whatever else the
      kernel thinks of the request. */
  function EpollCtl(epoll: map<nat, Mask>, op: Op, fd: nat, m: Mask, ok: bool): (r: (bool, map<nat, Mask>)) {
    if !ok || (op == ADD) == (fd in epoll) then (false, epoll)
    else if op == DEL then (true, epoll - {fd})
    else (true, epoll[fd := m])
  }

  // ---- the operations as functions -------------------------------------------------------

  /** contextResize, when fd is beyond the table. */
  function Grow(fds: seq<FdContext>, fd: nat): seq<FdContext> {
    if fd < |fds| then fds
    else
      var size := fd * 3 / 2;
      if size <= |fds| then fds[..size] else fds + seq(size - |fds|, _ => FRESH)
  }

  /** triggerEvent with the pending counter: None stands for its assert. */
  datatype Result = Done(io: Io) | AssertFailed

  function Trigger(io: Io, fd: nat, e: Event): Result
    requires fd < |io.fds|
  {
    var c := io.fds[fd];
    match GetEventContext(c, e)
    case Filled(w, r) =>
      if !Bit(c.events, e) || r >= |io.fate| then AssertFailed
      else Done(io.(fds := io.fds[fd := Put(c, e, false, Empty)], pending := io.pending - 1,
                    woken := io.woken + [Woken(w, r)], fate := io.fate[r := Scheduled(|io.woken|)]))
    case Empty => AssertFailed
  }

  function TriggerAll(io: Io, fd: nat, m: Mask): Result
    requires fd < |io.fds|
  {
    var first := if m.read then Trigger(io, fd, READ) else Done(io);
    match first
    case Done(mid) => if m.write then (if fd < |mid.fds| then Trigger(mid, fd, WRITE) else AssertFailed) else first
    case AssertFailed => AssertFailed
  }

  /** addEvent; the second part is its return value. */
  function AddEvent(io: Io, fd: nat, e: Event, w: Waiter, ok: bool): (Result, int) {
    var fds := Grow(io.fds, fd);
    if fd >= |fds| then (AssertFailed, 0)
    else
      var c := fds[fd];
      if Bit(c.events, e) then (AssertFailed, 0)
      else
        var op := if c.events != NONE then MOD else ADD;
        var (done, epoll) := EpollCtl(io.epoll, op, fd, WithBit(c.events, e, true), ok);
        if !done then (Done(io.(fds := fds)), -1)
        else if GetEventContext(c, e) != Empty then (AssertFailed, 0)
        else
          (Done(Io(fds[fd := Put(c, e, true, Filled(w, |io.fate|))], epoll, io.pending + 1, io.woken, io.fate + [Waiting(fd, e)])), 0)
  }

  /** Whether the bit can be taken out of the interest set, and the set without it. */
  function TakeOut(io: Io, fd: nat, e: Event, ok: bool): (bool, map<nat, Mask>) {
    if fd >= |io.fds| || !Bit(io.fds[fd].events, e) then (false, io.epoll)
    else
      var left := WithBit(io.fds[fd].events, e, false);
      EpollCtl(io.epoll, if left != NONE then MOD else DEL, fd, left, ok)
  }

  function DelEvent(io: Io, fd: nat, e: Event, ok: bool): (Result, bool) {
    var (done, epoll) := TakeOut(io, fd, e, ok);
    if !done then (Done(io), false)
    else
      var c := io.fds[fd];
      var ctx := GetEventContext(c, e);
      (Done(io.(fds := io.fds[fd := Put(c, e, false, Empty)], epoll := epoll, pending := io.pending - 1,
                fate := if ctx.Filled? && ctx.reg < |io.fate| then io.fate[ctx.reg := Dropped] else io.fate)), true)
  }

  function CancelEvent(io: Io, fd: nat, e: Event, ok: bool): (Result, bool) {
    var (done, epoll) := TakeOut(io, fd, e, ok);
    if !done then (Done(io), false) else (Trigger(io.(epoll := epoll), fd, e), true)
  }

  function CancelAll(io: Io, fd: nat, ok: bool): (Result, bool) {
    if fd >= |io.fds| || io.fds[fd].events == NONE then (Done(io), false)
    else
      var (done, epoll) := EpollCtl(io.epoll, DEL, fd, NONE, ok);
      if !done then (Done(io), false) else (TriggerAll(io.(epoll := epoll), fd, io.fds[fd].events), true)
  }

  /** The bits that one reported event stands for. */
  function RealEvents(events: Mask, reported: Mask, hangup: bool): Mask {
    if hangup then Mask(reported.read || events.read, reported.write || events.write) else reported
  }

  /** One round of the loop over what epoll_wait reported. */
  function Handle(io: Io, fd: nat, reported: Mask, hangup: bool, ok: bool): Result
    requires fd < |io.fds|
  {
    var events := io.fds[fd].events;
    var hit := RealEvents(events, reported, hangup);
    if Both(events, hit) == NONE then Done(io)
    else
      var left := Without(events, hit);
      var (done, epoll) := EpollCtl(io.epoll, if left != NONE then MOD else DEL, fd, left, ok);
      if !done then Done(io) else TriggerAll(io.(epoll := epoll), fd, hit)
  }

  // ---- what every reachable state keeps ------------------------------------------------------

  function CtxAt(io: Io, fd: nat, e: Event): Ctx
    requires fd < |io.fds|
  {
    GetEventContext(io.fds[fd], e)
  }

  /** A context is filled exactly when its bit is set. */
  predicate BitsMatch(c: FdContext) { c.events.read == c.read.Filled? && c.events.write == c.write.Filled? }

  /** The interest set holds exactly the descriptors with bits, with those bits: so adding,
      modifying and deleting are always the right operation. */
  predicate EpollMatches(io: Io) {
    && (forall fd | fd in io.epoll :: fd < |io.fds| && io.epoll[fd] == io.fds[fd].events)
    && (forall fd | 0 <= fd < |io.fds| :: fd in io.epoll <==> io.fds[fd].events != NONE)
  }

  predicate Tracked(io: Io, fd: nat, e: Event)
    requires fd < |io.fds|
  {
    var ctx := CtxAt(io, fd, e);
    ctx.Filled? ==> ctx.reg < |io.fate| && io.fate[ctx.reg] == Waiting(fd, e)
  }

  predicate FateHolds(io: Io, r: nat)
    requires r < |io.fate|
  {
    match io.fate[r]
    case Waiting(fd, e) => fd < |io.fds| && CtxAt(io, fd, e).Filled? && CtxAt(io, fd, e).reg == r
    case Scheduled(i) => i < |io.woken| && io.woken[i].reg == r
    case Dropped => true
  }

  /** Every registration is accounted for: a filled context, a woken entry or a deletion. */
  predicate Accounted(io: Io) {
    && (forall fd | 0 <= fd < |io.fds| :: BitsMatch(io.fds[fd]))
    && (forall fd, e | 0 <= fd < |io.fds| :: Tracked(io, fd, e))
    && (forall r | 0 <= r < |io.fate| :: FateHolds(io, r))
    && (forall i | 0 <= i < |io.woken| :: io.woken[i].reg < |io.fate| && io.fate[io.woken[i].reg] == Scheduled(i))
    && io.pending == BitCount(io.fds) == Waits(io.fate)
    && |io.woken| == Schedules(io.fate)
  }

  predicate Coherent(io: Io) { 32 <= |io.fds| && EpollMatches(io) && Accounted(io) }

  function MaskCount(m: Mask): nat { (if m.read then 1 else 0) + (if m.write then 1 else 0) }

  function BitCount(fds: seq<FdContext>): nat {
    if fds == [] then 0 else BitCount(fds[..|fds| - 1]) + MaskCount(fds[|fds| - 1].events)
  }

  function Waits(fate: seq<Fate>): nat {
    if fate == [] then 0 else Waits(fate[..|fate| - 1]) + (if fate[|fate| - 1].Waiting? then 1 else 0)
  }

  function Schedules(fate: seq<Fate>): nat {
    if fate == [] then 0 else Schedules(fate[..|fate| - 1]) + (if fate[|fate| - 1].Scheduled? then 1 else 0)
  }

  function Drops(fate: seq<Fate>): nat {
    if fate == [] then 0 else Drops(fate[..|fate| - 1]) + (if fate[|fate| - 1].Dropped? then 1 else 0)
  }

  lemma {:induction false} FateCounts(fate: seq<Fate>)
    ensures |fate| == Waits(fate) + Schedules(fate) + Drops(fate)
  {
    if fate != [] { FateCounts(fate[..|fate| - 1]); }
  }

  lemma {:induction false} BitCountUpdate(fds: seq<FdContext>, fd: nat, c: FdContext)
    requires fd < |fds|
    ensures BitCount(fds[fd := c]) == BitCount(fds) - MaskCount(fds[fd].events) + MaskCount(c.events)
  {
    var n := |fds| - 1;
    if fd == n {
      assert fds[fd := c][..n] == fds[..n];
    } else {
      BitCountUpdate(fds[..n], fd, c);
      assert fds[fd := c][..n] == fds[..n][fd := c];
    }
  }

  lemma {:induction false} FateUpdate(fate: seq<Fate>, r: nat, f: Fate)
    requires r < |fate|
    ensures Waits(fate[r := f]) == Waits(fate) - (if fate[r].Waiting? then 1 else 0) + (if f.Waiting? then 1 else 0)
    ensures Schedules(fate[r := f]) == Schedules(fate) - (if fate[r].Scheduled? then 1 else 0) + (if f.Scheduled? then 1 else 0)
  {
    var n := |fate| - 1;
    if r == n {
      assert fate[r := f][..n] == fate[..n];
    } else {
      FateUpdate(fate[..n], r, f);
      assert fate[r := f][..n] == fate[..n][r := f];
    }
  }

  lemma FateAppend(fate: seq<Fate>, f: Fate)
    ensures Waits(fate + [f]) == Waits(fate) + (if f.Waiting? then 1 else 0)
    ensures Schedules(fate + [f]) == Schedules(fate) + (if f.Scheduled? then 1 else 0)
  {
    assert (fate + [f])[..|fate|] == fate;
  }

  lemma {:induction false} BitCountGrow(fds: seq<FdContext>, n: nat)
    ensures BitCount(fds + seq(n, _ => FRESH)) == BitCount(fds)
  {
    var s := fds + seq(n, _ => FRESH);
    if n == 0 {
      assert s == fds;
    } else {
      BitCountGrow(fds, n - 1);
      assert s[..|s| - 1] == fds + seq(n - 1, _ => FRESH);
    }
  }

  lemma NothingCounted()
    ensures BitCount([]) == 0 && Waits([]) == 0 && Schedules([]) == 0
  {}

  lemma StartCoherent()
    ensures Coherent(Start())
  {
    hide BitCount, Waits, Schedules;
    NothingCounted();
    BitCountGrow([], 32);
    assert [] + seq(32, _ => FRESH) == Start().fds;
  }

  /** Adds = scheduled + deleted without firing + still registered, in any coherent state. */
  lemma EventsAreConserved(io: Io)
    requires Coherent(io)
    ensures |io.fate| == |io.woken| + Drops(io.fate) + BitCount(io.fds) && io.pending == BitCount(io.fds)
  {
    FateCounts(io.fate);
  }

  /** No registration is scheduled twice. */
  lemma WokenOnce(io: Io, i: nat, j: nat)
    requires Coherent(io) && i < |io.woken| && j < |io.woken| && io.woken[i].reg == io.woken[j].reg
    ensures i == j
  {
    assert io.fate[io.woken[i].reg] == Scheduled(i);
  }

  // ---- every operation keeps it ------------------------------------------------------------------

  /** Clearing a bit changes nothing but that bit and its context. */
  lemma PutCleared(c: FdContext, e: Event)
    ensures var d := Put(c, e, false, Empty);
            && d.events == WithBit(c.events, e, false)
            && (BitsMatch(c) ==> BitsMatch(d))
            && (forall f :: GetEventContext(d, f) == if f == e then Empty else GetEventContext(c, f))
            && (forall f :: Bit(d.events, f) == (f != e && Bit(c.events, f)))
            && MaskCount(d.events) == MaskCount(c.events) - (if Bit(c.events, e) then 1 else 0)
  {}

  lemma BitIsFilled(io: Io, fd: nat, e: Event)
    requires Accounted(io) && fd < |io.fds|
    ensures Bit(io.fds[fd].events, e) == CtxAt(io, fd, e).Filled?
    ensures CtxAt(io, fd, e).Filled? ==> CtxAt(io, fd, e).reg < |io.fate| && io.fate[CtxAt(io, fd, e).reg] == Waiting(fd, e)
  {
    assert BitsMatch(io.fds[fd]) && Tracked(io, fd, e);
  }

  /** The state after a registered bit is cleared, its registration having come to an end. */
  function Cleared(io: Io, fd: nat, e: Event, f: Fate, woken: seq<Woken>): Io
    requires fd < |io.fds| && CtxAt(io, fd, e).Filled? && CtxAt(io, fd, e).reg < |io.fate|
  {
    io.(fds := io.fds[fd := Put(io.fds[fd], e, false, Empty)], pending := io.pending - 1,
        woken := woken, fate := io.fate[CtxAt(io, fd, e).reg := f])
  }

  lemma ClearedKeeps(io: Io, fd: nat, e: Event, f: Fate, woken: seq<Woken>)
    requires Accounted(io) && fd < |io.fds| && Bit(io.fds[fd].events, e)
    requires CtxAt(io, fd, e).Filled? && CtxAt(io, fd, e).reg < |io.fate|
    requires || (f == Dropped && woken == io.woken)
             || (f == Scheduled(|io.woken|) && woken == io.woken + [Woken(CtxAt(io, fd, e).waiter, CtxAt(io, fd, e).reg)])
    ensures Accounted(Cleared(io, fd, e, f, woken))
  {
    hide Put, BitCount, Waits, Schedules, MaskCount;
    var next := Cleared(io, fd, e, f, woken);
    var r := CtxAt(io, fd, e).reg;
    BitIsFilled(io, fd, e);
    PutCleared(io.fds[fd], e);
    BitCountUpdate(io.fds, fd, next.fds[fd]);
    FateUpdate(io.fate, r, f);
    forall fd', e' | 0 <= fd' < |next.fds| ensures Tracked(next, fd', e') {
      assert Tracked(io, fd', e');
    }
    forall r' | 0 <= r' < |next.fate| ensures FateHolds(next, r') {
      assert FateHolds(io, r');
    }
  }

  lemma TriggerKeeps(io: Io, fd: nat, e: Event)
    requires Accounted(io) && fd < |io.fds| && Bit(io.fds[fd].events, e)
    ensures var ctx := CtxAt(io, fd, e);
            var t := Trigger(io, fd, e);
            && ctx.Filled? && ctx.reg < |io.fate| && t.Done? && Accounted(t.io)
            && t.io == Cleared(io, fd, e, Scheduled(|io.woken|), io.woken + [Woken(ctx.waiter, ctx.reg)])
  {
    hide Accounted, Put;
    BitIsFilled(io, fd, e);
    ClearedKeeps(io, fd, e, Scheduled(|io.woken|), io.woken + [Woken(CtxAt(io, fd, e).waiter, CtxAt(io, fd, e).reg)]);
  }

  /** The interest set after the bits of fd became left. */
  function Refit(epoll: map<nat, Mask>, fd: nat, left: Mask): map<nat, Mask> {
    if left != NONE then epoll[fd := left] else epoll - {fd}
  }

  lemma RefitMatches(io: Io, fd: nat, c: FdContext)
    requires EpollMatches(io) && fd < |io.fds|
    ensures EpollMatches(io.(fds := io.fds[fd := c], epoll := Refit(io.epoll, fd, c.events)))
  {}

  /** The kernel is never asked for something that does not fit its interest set. */
  lemma OperationFits(io: Io, fd: nat, left: Mask, ok: bool)
    requires EpollMatches(io) && fd < |io.fds| && io.fds[fd].events != NONE
    ensures EpollCtl(io.epoll, if left != NONE then MOD else DEL, fd, left, ok) ==
            if ok then (true, Refit(io.epoll, fd, left)) else (false, io.epoll)
  {}

  /** Trigger the bits of m, all of which are set. */
  lemma TriggerAllKeeps(io: Io, fd: nat, m: Mask)
    requires Accounted(io) && fd < |io.fds|
    requires Both(io.fds[fd].events, m) == m
    ensures var t := TriggerAll(io, fd, m);
            && t.Done? && Accounted(t.io) && |t.io.fds| == |io.fds| && t.io.epoll == io.epoll
            && t.io.fds == io.fds[fd := t.io.fds[fd]] && t.io.fds[fd].events == Without(io.fds[fd].events, m)
            && io.woken <= t.io.woken && |t.io.woken| == |io.woken| + MaskCount(m) && |t.io.fate| == |io.fate|
  {
    hide Accounted, Trigger, Put;
    var c := io.fds[fd];
    PutCleared(c, READ);
    if m.read { TriggerKeeps(io, fd, READ); }
    if m.write {
      var mid := if m.read then Trigger(io, fd, READ).io else io;
      PutCleared(mid.fds[fd], WRITE);
      TriggerKeeps(mid, fd, WRITE);
    }
  }

  /** Reported bits are all still registered, or none of them is. */
  predicate ReportIsCurrent(io: Io, fd: nat, reported: Mask, hangup: bool)
    requires fd < |io.fds|
  {
    var events := io.fds[fd].events;
    var hit := RealEvents(events, reported, hangup);
    Both(events, hit) == NONE || Both(events, hit) == hit
  }

  lemma GrowKeeps(io: Io, fd: nat)
    requires Coherent(io)
    ensures fd < |Grow(io.fds, fd)| && Coherent(io.(fds := Grow(io.fds, fd)))
    ensures fd < |io.fds| ==> Grow(io.fds, fd) == io.fds
    ensures fd >= |io.fds| ==> Grow(io.fds, fd)[fd] == FRESH
  {
    hide BitCount, Waits, Schedules;
    if fd >= |io.fds| {
      var next := io.(fds := Grow(io.fds, fd));
      BitCountGrow(io.fds, fd * 3 / 2 - |io.fds|);
      forall fd', e | 0 <= fd' < |next.fds| ensures Tracked(next, fd', e) {
        if fd' < |io.fds| { assert Tracked(io, fd', e); }
      }
      forall r | 0 <= r < |next.fate| ensures FateHolds(next, r) {
        assert FateHolds(io, r);
      }
    }
  }

  /** Setting a free bit changes nothing else. */
  lemma PutFilled(c: FdContext, e: Event, w: Waiter, r: nat)
    requires BitsMatch(c) && !Bit(c.events, e)
    ensures var d := Put(c, e, true, Filled(w, r));
            && GetEventContext(c, e) == Empty && BitsMatch(d) && d.events == WithBit(c.events, e, true) != NONE
            && (forall f :: GetEventContext(d, f) == if f == e then Filled(w, r) else GetEventContext(c, f))
            && MaskCount(d.events) == MaskCount(c.events) + 1
  {}

  lemma FilledKeeps(io: Io, fd: nat, e: Event, w: Waiter)
    requires Accounted(io) && fd < |io.fds| && !Bit(io.fds[fd].events, e)
    ensures Accounted(io.(fds := io.fds[fd := Put(io.fds[fd], e, true, Filled(w, |io.fate|))], pending := io.pending + 1,
                          fate := io.fate + [Waiting(fd, e)]))
  {
    hide Put, BitCount, Waits, Schedules, MaskCount;
    var c := Put(io.fds[fd], e, true, Filled(w, |io.fate|));
    var next := io.(fds := io.fds[fd := c], pending := io.pending + 1, fate := io.fate + [Waiting(fd, e)]);
    PutFilled(io.fds[fd], e, w, |io.fate|);
    BitCountUpdate(io.fds, fd, c);
    FateAppend(io.fate, Waiting(fd, e));
    forall fd', e' | 0 <= fd' < |next.fds| ensures Tracked(next, fd', e') {
      assert Tracked(io, fd', e');
    }
    forall r | 0 <= r < |next.fate| ensures FateHolds(next, r) {
      if r < |io.fate| { assert FateHolds(io, r); }
    }
    forall i | 0 <= i < |next.woken| ensures next.woken[i].reg < |next.fate| && next.fate[next.woken[i].reg] == Scheduled(i) {
      assert io.fate[io.woken[i].reg] == Scheduled(i);
    }
  }

  /** addEvent fails its assert exactly on a double registration; otherwise it returns -1 exactly
      when the kernel refuses, and then only the table may have grown. */
  lemma AddKeeps(io: Io, fd: nat, e: Event, w: Waiter, ok: bool)
    requires Coherent(io)
    ensures var (t, rt) := AddEvent(io, fd, e, w, ok);
            && (t.AssertFailed? <==> fd < |io.fds| && Bit(io.fds[fd].events, e))
            && (t.Done? ==>
                  && Coherent(t.io) && t.io.woken == io.woken && rt == (if ok then 0 else -1)
                  && t.io.fate == (if ok then io.fate + [Waiting(fd, e)] else io.fate)
                  && (ok ==> fd < |t.io.fds| && CtxAt(t.io, fd, e) == Filled(w, |io.fate|)))
  {
    hide Accounted, Put, Grow;
    GrowKeeps(io, fd);
    var mid := io.(fds := Grow(io.fds, fd));
    if !(fd < |io.fds| && Bit(io.fds[fd].events, e)) {
      FreeBit(mid, fd, e);
      PutFilled(mid.fds[fd], e, w, |io.fate|);
      FilledKeeps(mid, fd, e, w);
      var c := Put(mid.fds[fd], e, true, Filled(w, |io.fate|));
      RefitMatches(mid, fd, c);
      AccountsIgnoreEpoll(mid.(fds := mid.fds[fd := c], pending := io.pending + 1, fate := io.fate + [Waiting(fd, e)]),
                          Refit(io.epoll, fd, c.events));
    }
  }

  lemma FreeBit(io: Io, fd: nat, e: Event)
    requires Accounted(io) && fd < |io.fds|
    ensures BitsMatch(io.fds[fd])
  {}

  /** delEvent and cancelEvent take out exactly the registered events the kernel lets go. */
  lemma TakeOutFits(io: Io, fd: nat, e: Event, ok: bool)
    requires Coherent(io)
    ensures TakeOut(io, fd, e, ok) ==
            if ok && fd < |io.fds| && Bit(io.fds[fd].events, e)
            then (true, Refit(io.epoll, fd, WithBit(io.fds[fd].events, e, false)))
            else (false, io.epoll)
  {
    hide Accounted;
    if fd < |io.fds| && Bit(io.fds[fd].events, e) { OperationFits(io, fd, WithBit(io.fds[fd].events, e, false), ok); }
  }

  lemma DelKeeps(io: Io, fd: nat, e: Event, ok: bool)
    requires Coherent(io)
    ensures var (t, done) := DelEvent(io, fd, e, ok);
            && t.Done? && Coherent(t.io) && t.io.woken == io.woken
            && done == (ok && fd < |io.fds| && Bit(io.fds[fd].events, e))
            && (!done ==> t.io == io)
            && (done ==> CtxAt(io, fd, e).Filled? && CtxAt(io, fd, e).reg < |io.fate|
                         && t.io.fate == io.fate[CtxAt(io, fd, e).reg := Dropped])
  {
    hide Accounted, Put;
    TakeOutFits(io, fd, e, ok);
    if ok && fd < |io.fds| && Bit(io.fds[fd].events, e) {
      BitIsFilled(io, fd, e);
      ClearedKeeps(io, fd, e, Dropped, io.woken);
      PutCleared(io.fds[fd], e);
      RefitMatches(io, fd, Put(io.fds[fd], e, false, Empty));
      AccountsIgnoreEpoll(Cleared(io, fd, e, Dropped, io.woken), Refit(io.epoll, fd, WithBit(io.fds[fd].events, e, false)));
    }
  }

  lemma AccountsIgnoreEpoll(io: Io, epoll: map<nat, Mask>)
    requires Accounted(io)
    ensures Accounted(io.(epoll := epoll))
  {
    hide BitCount, Waits, Schedules;
    var next := io.(epoll := epoll);
    forall fd, e | 0 <= fd < |next.fds| ensures Tracked(next, fd, e) { assert Tracked(io, fd, e); }
    forall r | 0 <= r < |next.fate| ensures FateHolds(next, r) { assert FateHolds(io, r); }
  }

  /** cancelEvent schedules the waiter of the event, once. */
  lemma CancelKeeps(io: Io, fd: nat, e: Event, ok: bool)
    requires Coherent(io)
    ensures var (t, done) := CancelEvent(io, fd, e, ok);
            && t.Done? && Coherent(t.io)
            && done == (ok && fd < |io.fds| && Bit(io.fds[fd].events, e))
            && (!done ==> t.io == io)
            && (done ==> CtxAt(io, fd, e).Filled?
                         && t.io.woken == io.woken + [Woken(CtxAt(io, fd, e).waiter, CtxAt(io, fd, e).reg)])
  {
    hide Accounted, Put, Trigger;
    TakeOutFits(io, fd, e, ok);
    if ok && fd < |io.fds| && Bit(io.fds[fd].events, e) {
      var epoll := Refit(io.epoll, fd, WithBit(io.fds[fd].events, e, false));
      AccountsIgnoreEpoll(io, epoll);
      TriggerKeeps(io.(epoll := epoll), fd, e);
      PutCleared(io.fds[fd], e);
      RefitMatches(io, fd, Put(io.fds[fd], e, false, Empty));
    }
  }

  /** cancelAll schedules the waiter of every event of the descriptor, each once. */
  lemma CancelAllKeeps(io: Io, fd: nat, ok: bool)
    requires Coherent(io)
    ensures var (t, done) := CancelAll(io, fd, ok);
            && t.Done? && Coherent(t.io)
            && done == (ok && fd < |io.fds| && io.fds[fd].events != NONE)
            && (!done ==> t.io == io)
            && (done ==> fd < |t.io.fds| && t.io.fds[fd].events == NONE && io.woken <= t.io.woken
                         && |t.io.woken| == |io.woken| + MaskCount(io.fds[fd].events))
  {
    hide Accounted, TriggerAll;
    if fd < |io.fds| && io.fds[fd].events != NONE {
      OperationFits(io, fd, NONE, ok);
      if ok {
        var epoll := Refit(io.epoll, fd, NONE);
        AccountsIgnoreEpoll(io, epoll);
        TriggerAllKeeps(io.(epoll := epoll), fd, io.fds[fd].events);
        var t := TriggerAll(io.(epoll := epoll), fd, io.fds[fd].events);
        RefitMatches(io, fd, t.io.fds[fd]);
      }
    }
  }

  /** The idle loop's round on one reported descriptor: its asserts hold exactly if the report is
      still current (or the kernel refuses the change); then the reported events are scheduled. */
  lemma HandleKeeps(io: Io, fd: nat, reported: Mask, hangup: bool, ok: bool)
    requires Coherent(io) && fd < |io.fds|
    ensures var t := Handle(io, fd, reported, hangup, ok);
            var hit := RealEvents(io.fds[fd].events, reported, hangup);
            && (t.Done? <==> !ok || ReportIsCurrent(io, fd, reported, hangup))
            && (t.Done? ==>
                  && Coherent(t.io) && io.woken <= t.io.woken && |t.io.fate| == |io.fate| && |t.io.fds| == |io.fds|
                  && (if ok then t.io.fds[fd].events == Without(io.fds[fd].events, hit) else t.io == io))
  {
    hide Accounted, TriggerAll, Put;
    var events := io.fds[fd].events;
    var hit := RealEvents(events, reported, hangup);
    if Both(events, hit) != NONE {
      var left := Without(events, hit);
      OperationFits(io, fd, left, ok);
      if ok {
        var epoll := Refit(io.epoll, fd, left);
        AccountsIgnoreEpoll(io, epoll);
        var mid := io.(epoll := epoll);
        if Both(events, hit) == hit {
          TriggerAllKeeps(mid, fd, hit);
          RefitMatches(io, fd, TriggerAll(mid, fd, hit).io.fds[fd]);
        } else {
          StaleReportFails(mid, fd, hit);
        }
      }
    }
  }

  lemma StaleReportFails(io: Io, fd: nat, m: Mask)
    requires Accounted(io) && fd < |io.fds| && Both(io.fds[fd].events, m) != m
    ensures TriggerAll(io, fd, m).AssertFailed?
  {
    hide Accounted, Put;
    var c := io.fds[fd];
    BitIsFilled(io, fd, READ);
    BitIsFilled(io, fd, WRITE);
    PutCleared(c, READ);
    if m.read && Bit(c.events, READ) { TriggerKeeps(io, fd, READ); }
  }

  // ---- whole runs ------------------------------------------------------------------------------------

  /** One call into the manager. Report is a round of the idle loop. */
  datatype Call =
    | Add(fd: nat, event: Event, waiter: Waiter, ok: bool)
    | Del(fd: nat, event: Event, ok: bool)
    | Cancel(fd: nat, event: Event, ok: bool)
    | CancelEvery(fd: nat, ok: bool)
    | Report(fd: nat, reported: Mask, hangup: bool, ok: bool)

  function Perform(io: Io, call: Call): Result {
    match call
    case Add(fd, e, w, ok) => AddEvent(io, fd, e, w, ok).0
    case Del(fd, e, ok) => DelEvent(io, fd, e, ok).0
    case Cancel(fd, e, ok) => CancelEvent(io, fd, e, ok).0
    case CancelEvery(fd, ok) => CancelAll(io, fd, ok).0
    case Report(fd, m, hangup, ok) => if fd < |io.fds| then Handle(io, fd, m, hangup, ok) else Done(io)
  }

  /** No event is registered twice, and reports are current. */
  predicate Proper(io: Io, call: Call) {
    match call
    case Add(fd, e, _, _) => fd < |io.fds| ==> !Bit(io.fds[fd].events, e)
    case Report(fd, m, hangup, ok) => fd < |io.fds| ==> !ok || ReportIsCurrent(io, fd, m, hangup)
    case _ => true
  }

  lemma PerformKeeps(io: Io, call: Call)
    requires Coherent(io)
    ensures Perform(io, call).Done? <==> Proper(io, call)
    ensures Perform(io, call).Done? ==> Coherent(Perform(io, call).io)
  {
    hide Coherent, AddEvent, DelEvent, CancelEvent, CancelAll, Handle, ReportIsCurrent;
    match call
    case Add(fd, e, w, ok) => AddKeeps(io, fd, e, w, ok);
    case Del(fd, e, ok) => DelKeeps(io, fd, e, ok);
    case Cancel(fd, e, ok) => CancelKeeps(io, fd, e, ok);
    case CancelEvery(fd, ok) => CancelAllKeeps(io, fd, ok);
    case Report(fd, m, hangup, ok) => if fd < |io.fds| { HandleKeeps(io, fd, m, hangup, ok); }
  }

  function PerformAll(io: Io, calls: seq<Call>): Result {
    if calls == [] then Done(io)
    else match PerformAll(io, calls[..|calls| - 1])
      case Done(mid) => Perform(mid, calls[|calls| - 1])
      case AssertFailed => AssertFailed
  }

  /** Every call of the run is proper when it is made. */
  predicate AllProper(io: Io, calls: seq<Call>) {
    calls == [] ||
    (&& AllProper(io, calls[..|calls| - 1])
     && PerformAll(io, calls[..|calls| - 1]).Done?
     && Proper(PerformAll(io, calls[..|calls| - 1]).io, calls[|calls| - 1]))
  }

  /** Over every run: no assert of the manager fires exactly when all calls are proper, and then
      the state is coherent and every registration ever made is accounted for once. */
  lemma {:induction false} RunIsCoherent(calls: seq<Call>)
    ensures PerformAll(Start(), calls).Done? <==> AllProper(Start(), calls)
    ensures PerformAll(Start(), calls).Done? ==>
              var io := PerformAll(Start(), calls).io;
              Coherent(io) && |io.fate| == |io.woken| + Drops(io.fate) + BitCount(io.fds) && io.pending == BitCount(io.fds)
  {
    hide Coherent, Perform, Proper, Drops, BitCount;
    if calls == [] {
      StartCoherent();
      EventsAreConserved(Start());
    } else {
      RunIsCoherent(calls[..|calls| - 1]);
      var before := PerformAll(Start(), calls[..|calls| - 1]);
      if before.Done? {
        PerformKeeps(before.io, calls[|calls| - 1]);
        if Perform(before.io, calls[|calls| - 1]).Done? { EventsAreConserved(Perform(before.io, calls[|calls| - 1]).io); }
      }
    }
  }
}
