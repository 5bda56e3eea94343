/** One thread that sleeps in epoll_wait while others arm, move and cancel timers: it never sleeps
    past the earliest deadline without a tickle on its way. */
module Deadlines {
  import opened Options
  import T = Timers

  /** The sleeper outside idle, in idle, between asking for the next timer and sleeping, asleep
      until wake (ms after the call, which came lag after asking), asleep without end, or awake and
      still in idle. */
  datatype Phase =
    | Outside | Entered | Asked(timeout: nat, at: nat)
    | Asleep(wake: nat, lag: nat, ms: nat) | Endless(timeout: nat, at: nat)
    | Awake

  /** pipe counts the unread bytes in the tickle pipe. */
  datatype World = World(tm: T.State, now: nat, phase: Phase, pipe: nat)

  const MAX_TIMEOUT: nat := 5000

  /** What epoll_wait is told: the remaining time cut down to an int, and at most five seconds.
      None is a negative timeout, which means for ever. */
  function EpollTimeout(t: nat): Option<nat> {
    if t == T.NEVER then Some(MAX_TIMEOUT)
    else
      var low := t % 0x1_0000_0000;
      if low >= 0x8000_0000 then None else Some(if low < MAX_TIMEOUT then low else MAX_TIMEOUT)
  }

  /** The sleep is bounded, and then no longer than the remaining time, exactly if bit 31 of the
      remaining time is clear. */
  lemma SleepIsBounded(t: nat)
    requires t <= T.NEVER
    ensures EpollTimeout(t).Some? <==> t == T.NEVER || (t / 0x8000_0000) % 2 == 0
    ensures EpollTimeout(t).Some? ==> EpollTimeout(t).value <= t && EpollTimeout(t).value <= MAX_TIMEOUT
  {
    var q, low := t / 0x1_0000_0000, t % 0x1_0000_0000;
    assert t == q * 0x1_0000_0000 + low;
    assert t / 0x8000_0000 == 2 * q + low / 0x8000_0000;
  }

  lemma EndlessIsLong(t: nat)
    requires t <= T.NEVER
    ensures EpollTimeout(t).None? ==> 0x8000_0000 <= t < T.NEVER
  {}

  predicate InIdle(p: Phase) { !p.Outside? }

  /** tickle writes only if some thread is idle. */
  function Tickle(w: World): World { if InIdle(w.phase) then w.(pipe := w.pipe + 1) else w }

  function Told(w: World, tm: T.State, front: bool): World { if front then Tickle(w.(tm := tm)) else w.(tm := tm) }

  datatype Step =
    | Pass(ms: nat)
    | Add(a: nat, ms: nat, cb: nat, recurring: bool)
    | Cancel(a: nat)
    | Refresh(a: nat)
    | Reset(a: nat, ms: nat, fromNow: bool)
    | Poke                       // somebody schedules a task and tickles
    | Enter | Ask | Sleep | Interrupt | Wake | Expire | Drain | Leave
    | Ready                      // an event on some descriptor

  /** Sums fit a word, as they do for centuries. */
  predicate Fits(w: World, step: Step)
    requires T.Coherent(w.tm)
  {
    match step
    case Add(_, ms, _, _) => w.now + ms < T.WORD
    case Refresh(a) => a in w.tm.timer && w.now + w.tm.timer[a].ms < T.WORD
    case Reset(a, ms, fromNow) => a in w.tm.timer && w.now + ms < T.WORD
    case Expire => forall a | a in w.tm.timer :: w.now + w.tm.timer[a].ms < T.WORD
    case _ => true
  }

  function Next(w: World, step: Step): Option<World>
    requires T.Coherent(w.tm)
  {
    if !Fits(w, step) then None
    else match step
      case Pass(ms) => Some(w.(now := w.now + ms))
      case Add(a, ms, cb, recurring) =>
        if a in w.tm.timer then None
        else var (tm, front) := T.AddTimer(w.tm, a, ms, cb, recurring, w.now); Some(Told(w, tm, front))
      case Cancel(a) => if a in w.tm.timer then Some(w.(tm := T.Cancel(w.tm, a).0)) else None
      case Refresh(a) => Some(w.(tm := T.Refresh(w.tm, a, w.now).0))
      case Reset(a, ms, fromNow) =>
        var (tm, _, front) := T.Reset(w.tm, a, ms, fromNow, w.now);
        Some(Told(w, tm, front))
      case Poke => Some(Tickle(w))
      case Enter => if w.phase.Outside? then Some(w.(phase := Entered)) else None
      case Ask =>
        if !w.phase.Entered? then None
        else var (tm, t) := T.GetNextTimer(w.tm, w.now); Some(w.(tm := tm, phase := Asked(t, w.now)))
      case Sleep =>
        if !w.phase.Asked? || w.now < w.phase.at then None
        else if EpollTimeout(w.phase.timeout).None? then Some(w.(phase := Endless(w.phase.timeout, w.phase.at)))
        else
          var ms := EpollTimeout(w.phase.timeout).value;
          Some(w.(phase := Asleep(w.now + ms, w.now - w.phase.at, ms)))
      case Interrupt =>  // EINTR: the same timeout once more
        if w.phase.Endless? then
          // a timeout of -1 has become the value that stands for no timer
          if w.phase.timeout % 0x1_0000_0000 != 0xFFFF_FFFF then Some(w)
          else if w.now < w.phase.at then None
          else Some(w.(phase := Asleep(w.now + MAX_TIMEOUT, w.now - w.phase.at, MAX_TIMEOUT)))
        else if !w.phase.Asleep? || w.now + w.phase.ms < w.phase.wake then None
        else Some(w.(phase := Asleep(w.now + w.phase.ms, w.phase.lag + (w.now + w.phase.ms - w.phase.wake), w.phase.ms)))
      case Wake => if w.phase.Asleep? || (w.phase.Endless? && w.pipe > 0) then Some(w.(phase := Awake)) else None
      case Ready => if w.phase.Asleep? || w.phase.Endless? then Some(w.(phase := Awake)) else None
      case Expire => if w.phase.Awake? then Some(w.(tm := T.ListExpired(w.tm, w.now).0)) else None
      case Drain => if w.phase.Awake? then Some(w.(pipe := 0)) else None
      case Leave => if w.phase.Awake? then Some(w.(phase := Outside)) else None
  }

  // ---- what every state keeps ----------------------------------------------------------------

  /** Every timer was armed no later than now. */
  predicate Armed(tm: T.State, now: nat) {
    forall a | a in tm.timer :: tm.timer[a].ms <= tm.timer[a].next <= now + tm.timer[a].ms && tm.timer[a].next < T.WORD
  }

  predicate NotBefore(tm: T.State, limit: int) {
    forall a | a in tm.order && a in tm.timer :: limit <= tm.timer[a].next
  }

  /** The sleeper's plan is good, or a tickle is on its way to change it. */
  predicate Planned(w: World) {
    match w.phase
    case Asked(t, at) => w.pipe > 0 || t == 0 || (t == T.NEVER && w.tm.order == []) || (t != T.NEVER && NotBefore(w.tm, at + t))
    case Asleep(wake, lag, ms) => w.pipe > 0 || ms == 0 || NotBefore(w.tm, wake - lag)
    case Endless(t, at) => w.pipe > 0 || NotBefore(w.tm, at + t)
    case _ => true
  }

  /** While it asks or sleeps, tickled means that a byte is in the pipe. */
  predicate TickledOk(w: World) { (w.phase.Asked? || w.phase.Asleep? || w.phase.Endless?) && w.tm.tickled ==> w.pipe > 0 }

  predicate Inv(w: World) {
    && T.Coherent(w.tm) && Armed(w.tm, w.now) && TickledOk(w) && Planned(w) && w.tm.previous <= w.now && 0 < w.now
    && (w.phase.Asked? ==> w.phase.timeout <= T.NEVER)
    && (w.phase.Endless? ==> 0x8000_0000 <= w.phase.timeout < T.NEVER)
  }

  /** A timer is put in: if it comes before all others the sleeper is told, or was told already. */
  lemma PutInPlanned(tm: T.State, a: nat, t: T.Timer, limit: int)
    requires T.Known(tm.timer, tm.order) && T.Sorted(tm.timer, tm.order) && a !in tm.order && t.cb.Some?
    requires NotBefore(tm, limit)
    ensures var (r, front) := T.PutIn(tm, a, t);
            && (NotBefore(r, limit) || front || tm.tickled) && r.tickled == (tm.tickled || front)
            && (tm.order == [] ==> front || tm.tickled)
  {
    T.OutsideSet(tm.timer, tm.order, a, t);
    T.InsertKeeps(tm.timer[a := t], tm.order, a);
    var (r, front) := T.PutIn(tm, a, t);
    if r.order[0] != a {
      forall b | b in r.order && b in r.timer ensures limit <= r.timer[b].next {
        if b == a {
          var i :| 0 <= i < |r.order| && r.order[i] == a;
          assert T.Before(r.timer, r.order[0], r.order[i]);
          assert r.order[0] in tm.order && tm.order[0] == r.order[0];
        }
      }
    }
  }

  /** Taking a timer out, or moving it later, spoils no plan. */
  lemma FewerTimers(tm: T.State, r: T.State, limit: int)
    requires NotBefore(tm, limit) && r.timer.Keys == tm.timer.Keys
    requires forall a | a in r.order :: a in tm.order && a in tm.timer && tm.timer[a].next <= r.timer[a].next
    ensures NotBefore(r, limit)
  {}

  lemma AddKeeps(w: World, a: nat, ms: nat, cb: nat, recurring: bool)
    requires Inv(w) && a !in w.tm.timer && w.now + ms < T.WORD
    ensures var (tm, front) := T.AddTimer(w.tm, a, ms, cb, recurring, w.now); Inv(Told(w, tm, front))
  {
    hide T.Insert;
    T.AddTimerKeeps(w.tm, a, ms, cb, recurring, w.now);
    var t := T.Timer(w.now + ms, ms, recurring, Some(cb));
    PutInPlan(w, w.tm, a, t);
  }

  /** Whatever the plan was, it is good or a tickle is on its way after a timer was put in. */
  lemma PutInPlan(w: World, tm: T.State, a: nat, t: T.Timer)
    requires T.Known(tm.timer, tm.order) && T.Sorted(tm.timer, tm.order) && a !in tm.order && t.cb.Some?
    requires TickledOk(w.(tm := tm)) && Planned(w.(tm := tm))
    ensures var (r, front) := T.PutIn(tm, a, t); Planned(Told(w, r, front)) && TickledOk(Told(w, r, front))
  {
    hide T.PutIn, T.Sorted;
    match w.phase
    case Asked(k, at) =>
      if NotBefore(tm, at + k) { PutInPlanned(tm, a, t, at + k); }
      if tm.order == [] { PutInPlanned(tm, a, t, 0); }
      PutInTickles(tm, a, t);
    case Asleep(wake, lag, _) =>
      if NotBefore(tm, wake - lag) { PutInPlanned(tm, a, t, wake - lag); }
      PutInTickles(tm, a, t);
    case Endless(k, at) =>
      if NotBefore(tm, at + k) { PutInPlanned(tm, a, t, at + k); }
      PutInTickles(tm, a, t);
    case _ =>
  }

  lemma PutInTickles(tm: T.State, a: nat, t: T.Timer)
    requires T.Known(tm.timer, tm.order)
    ensures var (r, front) := T.PutIn(tm, a, t); r.tickled == (tm.tickled || front)
  {}

  lemma CancelKeeps(w: World, a: nat)
    requires Inv(w) && a in w.tm.timer
    ensures Inv(w.(tm := T.Cancel(w.tm, a).0))
  {
    hide T.Sorted, T.Erase;
    T.CancelKeeps(w.tm, a);
    T.EraseKeeps(w.tm.timer, w.tm.order, a);
  }

  lemma RefreshKeeps(w: World, a: nat)
    requires Inv(w) && a in w.tm.timer && w.now + w.tm.timer[a].ms < T.WORD
    ensures Inv(w.(tm := T.Refresh(w.tm, a, w.now).0))
  {
    hide T.Refresh, T.Coherent;
    T.RefreshKeeps(w.tm, a, w.now);
    RefreshOrder(w.tm, a, w.now);
    var r := T.Refresh(w.tm, a, w.now).0;
    match w.phase
    case Asked(t, at) => if NotBefore(w.tm, at + t) { FewerTimers(w.tm, r, at + t); }
    case Asleep(wake, lag, _) => if NotBefore(w.tm, wake - lag) { FewerTimers(w.tm, r, wake - lag); }
    case _ =>
  }

  lemma RefreshOrder(tm: T.State, a: nat, now: nat)
    requires T.Coherent(tm) && a in tm.timer
    ensures var r := T.Refresh(tm, a, now).0;
            (forall b :: b in r.order <==> b in tm.order) && r.timer.Keys == tm.timer.Keys && r.tickled == tm.tickled
            && (forall b | b in tm.order :: b in tm.timer) && r.previous == tm.previous
            && (a !in tm.order ==> r == tm)
  {
    hide T.Sorted;
    T.RefreshKeeps(tm, a, now);
  }

  lemma ResetKeeps(w: World, a: nat, ms: nat, fromNow: bool)
    requires Inv(w) && a in w.tm.timer && w.now + ms < T.WORD
    ensures var (tm, _, front) := T.Reset(w.tm, a, ms, fromNow, w.now); Inv(Told(w, tm, front))
  {
    hide T.PutIn, T.Sorted, T.Erase, T.Later, T.Known, Planned, TickledOk;
    T.ResetKeeps(w.tm, a, ms, fromNow, w.now);
    var t := w.tm.timer[a];
    if (ms == t.ms && !fromNow) || t.cb.None? {
    } else {
      T.EraseKeeps(w.tm.timer, w.tm.order, a);
      var out := w.tm.(order := T.Erase(w.tm.order, a));
      var start := if fromNow then w.now else (t.next + T.WORD - t.ms) % T.WORD;
      StartIsPast(t, w.now, fromNow);
      LaterFits(start, ms);
      ErasePlanned(w, out);
      PutInPlan(w, out, a, t.(ms := ms, next := T.Later(start, ms)));
      PutInFields(out, a, t.(ms := ms, next := T.Later(start, ms)));
    }
  }

  lemma LaterFits(now: nat, ms: nat)
    requires now + ms < T.WORD
    ensures T.Later(now, ms) == now + ms
  {}

  lemma StartIsPast(t: T.Timer, now: nat, fromNow: bool)
    requires t.ms <= t.next <= now + t.ms && t.next < T.WORD
    ensures (t.next + T.WORD - t.ms) % T.WORD == t.next - t.ms <= now
  {
    assert (t.next - t.ms + T.WORD) % T.WORD == t.next - t.ms;
  }

  lemma ErasePlanned(w: World, out: T.State)
    requires Planned(w) && TickledOk(w) && out.timer == w.tm.timer && out.tickled == w.tm.tickled
    requires forall b | b in out.order :: b in w.tm.order
    ensures Planned(w.(tm := out)) && TickledOk(w.(tm := out))
  {
    if out.order != [] { assert out.order[0] in out.order; }
  }

  lemma PutInFields(tm: T.State, a: nat, t: T.Timer)
    requires T.Known(tm.timer, tm.order)
    ensures T.PutIn(tm, a, t).0.timer == tm.timer[a := t] && T.PutIn(tm, a, t).0.previous == tm.previous
  {}

  lemma AskKeeps(w: World)
    requires Inv(w) && w.phase.Entered?
    ensures var (tm, t) := T.GetNextTimer(w.tm, w.now); Inv(w.(tm := tm, phase := Asked(t, w.now)))
  {
    hide T.Sorted;
    if w.tm.order != [] { FirstIsEarliest(w.tm); }
  }

  lemma FirstIsEarliest(tm: T.State)
    requires T.Coherent(tm) && tm.order != []
    ensures NotBefore(tm, tm.timer[tm.order[0]].next)
  {
    forall a | a in tm.order && a in tm.timer ensures tm.timer[tm.order[0]].next <= tm.timer[a].next {
      var i :| 0 <= i < |tm.order| && tm.order[i] == a;
      if i > 0 { assert T.Before(tm.timer, tm.order[0], tm.order[i]); }
    }
  }

  lemma ExpireKeeps(w: World)
    requires Inv(w) && w.phase.Awake? && forall a | a in w.tm.timer :: w.now + w.tm.timer[a].ms < T.WORD
    ensures Inv(w.(tm := T.ListExpired(w.tm, w.now).0))
  {
    hide T.Sorted, T.ListExpired, T.Due;
    T.ExpiryIsExact(w.tm, w.now);
    T.PreviousIsPast(w.tm, w.now);
  }

  lemma NextKeeps(w: World, step: Step)
    requires Inv(w) && Next(w, step).Some?
    ensures Inv(Next(w, step).value)
  {
    hide T.Coherent, T.AddTimer, T.Cancel, T.Refresh, T.Reset, T.ListExpired, EpollTimeout, T.GetNextTimer;
    match step
    case Add(a, ms, cb, recurring) => AddKeeps(w, a, ms, cb, recurring);
    case Cancel(a) => CancelKeeps(w, a);
    case Refresh(a) => RefreshKeeps(w, a);
    case Reset(a, ms, fromNow) => ResetKeeps(w, a, ms, fromNow);
    case Ask => AskKeeps(w);
    case Sleep => if w.phase.Asked? { SleepIsBounded(w.phase.timeout); EndlessIsLong(w.phase.timeout); }
    case Expire => ExpireKeeps(w);
    case _ =>
  }

  function RunSteps(w: World, steps: seq<Step>): Option<World> {
    if steps == [] then Some(w)
    else match RunSteps(w, steps[..|steps| - 1])
      case Some(u) => if T.Coherent(u.tm) then Next(u, steps[|steps| - 1]) else None
      case None => None
  }

  function Boot(now: nat): World { World(T.State(map[], [], false, now), now, Outside, 0) }

  lemma {:induction false} RunKeeps(w: World, steps: seq<Step>)
    requires Inv(w) && RunSteps(w, steps).Some?
    ensures Inv(RunSteps(w, steps).value)
  {
    if steps != [] {
      hide Inv, Next, T.Coherent;
      RunKeeps(w, steps[..|steps| - 1]);
      NextKeeps(RunSteps(w, steps[..|steps| - 1]).value, steps[|steps| - 1]);
    }
  }

  /** Whenever the thread sleeps, a tickle is already in the pipe, or it does not block, or it will
      wake at or before the earliest deadline, late by no more than the time from asking to
      sleeping. */
  lemma NoMissedDeadline(now: nat, steps: seq<Step>)
    requires 0 < now && RunSteps(Boot(now), steps).Some?
    ensures var w := RunSteps(Boot(now), steps).value;
            w.phase.Asleep? ==>
              w.pipe > 0 || w.phase.ms == 0 || forall a | a in w.tm.order :: a in w.tm.timer && w.phase.wake - w.phase.lag <= w.tm.timer[a].next
  {
    RunKeeps(Boot(now), steps);
    hide RunSteps, Boot;
    var w := RunSteps(Boot(now), steps).value;
    if w.phase.Asleep? && w.pipe == 0 && w.phase.ms != 0 {
      forall a | a in w.tm.order ensures a in w.tm.timer {
        var i :| 0 <= i < |w.tm.order| && w.tm.order[i] == a;
      }
    }
  }

  // ---- the timer that is missed --------------------------------------------------------------------

  /** A timer for 2^31 ms is armed, the thread goes idle, and as much time goes by. */
  const TO_SLEEP: seq<Step> := [Add(0, 0x8000_0000, 7, false), Enter, Ask, Sleep, Pass(0x8000_0000)]

  function Long(now: nat, k: nat): World {
    var armed := T.State(map[0 := T.Timer(now + 0x8000_0000, 0x8000_0000, false, Some(7))], [0], false, now);
    if k == 0 then Boot(now)
    else if k == 1 then World(armed.(tickled := true), now, Outside, 0)
    else if k == 2 then World(armed.(tickled := true), now, Entered, 0)
    else if k == 3 then World(armed, now, Asked(0x8000_0000, now), 0)
    else if k == 4 then World(armed, now, Endless(0x8000_0000, now), 0)
    else World(armed, now + 0x8000_0000, Endless(0x8000_0000, now), 0)
  }

  lemma LongStep(now: nat, k: nat)
    requires k < 5 && now + 0x8000_0000 < T.WORD
    ensures T.Coherent(Long(now, k).tm) && Next(Long(now, k), TO_SLEEP[k]) == Some(Long(now, k + 1))
  {
    if k == 0 {
      var t := T.Timer(now + 0x8000_0000, 0x8000_0000, false, Some(7));
      assert Boot(now).tm.timer[0 := t] == map[0 := t] && T.Insert(map[0 := t], [], 0) == [0];
      assert T.PutIn(Boot(now).tm, 0, t).0 == Long(now, 1).tm;
    }
  }

  lemma {:induction false} LongRun(now: nat, k: nat)
    requires k <= 5 && now + 0x8000_0000 < T.WORD
    ensures RunSteps(Boot(now), TO_SLEEP[..k]) == Some(Long(now, k))
  {
    if k > 0 {
      hide Next, T.Coherent;
      LongRun(now, k - 1);
      LongStep(now, k - 1);
      assert TO_SLEEP[..k][..k - 1] == TO_SLEEP[..k - 1] && TO_SLEEP[..k][k - 1] == TO_SLEEP[k - 1];
    }
  }

  /** The thread is asleep without end while its only timer is due; no time that goes by wakes it,
      nor does an interruption. */
  lemma LongTimerSleepsForEver(now: nat, ms: nat)
    requires now + 0x8000_0000 < T.WORD
    ensures RunSteps(Boot(now), TO_SLEEP) == Some(Long(now, 5))
    ensures var w := Long(now, 5);
            && w.phase.Endless? && w.pipe == 0 && w.tm.order == [0] && w.tm.timer[0].next <= w.now && w.tm.timer[0].cb == Some(7)
            && T.Coherent(w.tm) && Next(w, Wake) == None && Next(w, Interrupt) == Some(w)
            && Next(w, Pass(ms)) == Some(w.(now := w.now + ms)) && Next(w.(now := w.now + ms), Wake) == None
  {
    LongRun(now, 5);
    assert TO_SLEEP[..5] == TO_SLEEP;
    hide RunSteps;
  }
}
