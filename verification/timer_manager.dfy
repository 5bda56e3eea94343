/** The TimerManager as an object: its methods against the functions of Timers. A timer is known
    by its address, which is also what breaks ties in the set. */
module TimerManagers {
  import opened Options
  import opened Seqs
  import opened Timers
  import T = Timers

  class TimerManager {
    /** The fields of all timers, the set of them, the tickled flag and the last time seen. */
    var timer: map<nat, Timer>
    var timers: seq<nat>
    var tickled: bool
    var previousTime: nat

    function State(): T.State
      reads this
    {
      T.State(timer, timers, tickled, previousTime)
    }

    constructor (now: nat)
      ensures Coherent(State()) && timers == [] && timer == map[] && !tickled && previousTime == now
    {
      timer, timers, tickled, previousTime := map[], [], false, now;
    }

    /** The private addTimer, from behind the lock to the call of onTimerInsertedAtFront. */
    method PutIn(a: nat) returns (front: bool)
      requires a in timer && Known(timer, timers) && Sorted(timer, timers) && a !in timers
      modifies `timers, `tickled
      ensures T.PutIn(old(State()), a, timer[a]) == (State(), front)
    {
      assert timer[a := timer[a]] == timer;
      timers := Insert(timer, timers, a);
      front := timers[0] == a && !tickled;
      if front {
        tickled := true;
      }
    }

    method AddTimer(a: nat, ms: nat, cb: nat, recurring: bool, now: nat) returns (front: bool)
      requires Coherent(State()) && a !in timer
      modifies this
      ensures Coherent(State()) && T.AddTimer(old(State()), a, ms, cb, recurring, now) == (State(), front)
    {
      AddTimerKeeps(State(), a, ms, cb, recurring, now);
      OutsideSet(timer, timers, a, Timer(Later(now, ms), ms, recurring, Some(cb)));
      timer := timer[a := Timer(Later(now, ms), ms, recurring, Some(cb))];
      assert timer[a := timer[a]] == timer;
      front := PutIn(a);
    }

    method Cancel(a: nat) returns (done: bool)
      requires Coherent(State()) && a in timer
      modifies this
      ensures Coherent(State()) && T.Cancel(old(State()), a) == (State(), done)
    {
      CancelKeeps(State(), a);
      if timer[a].cb.None? {
        return false;
      }
      timer := timer[a := timer[a].(cb := None)];
      timers := Erase(timers, a);
      done := true;
    }

    method Refresh(a: nat, now: nat) returns (done: bool)
      requires Coherent(State()) && a in timer
      modifies this
      ensures Coherent(State()) && T.Refresh(old(State()), a, now) == (State(), done)
    {
      RefreshKeeps(State(), a, now);
      if timer[a].cb.None? {
        return false;
      }
      EraseKeeps(timer, timers, a);
      timers := Erase(timers, a);
      timer := timer[a := timer[a].(next := Later(now, timer[a].ms))];
      timers := Insert(timer, timers, a);
      done := true;
    }

    method Reset(a: nat, ms: nat, fromNow: bool, now: nat) returns (done: bool, front: bool)
      requires Coherent(State()) && a in timer
      modifies this
      ensures Coherent(State()) && T.Reset(old(State()), a, ms, fromNow, now) == (State(), done, front)
    {
      ResetKeeps(State(), a, ms, fromNow, now);
      if ms == timer[a].ms && !fromNow {
        return true, false;
      }
      if timer[a].cb.None? {
        return false, false;
      }
      EraseKeeps(timer, timers, a);
      timers := Erase(timers, a);
      var start := if fromNow then now else (timer[a].next + WORD - timer[a].ms) % WORD;
      front := PutBack(a, timer[a].(ms := ms, next := Later(start, ms)));
      done := true;
    }

    /** A timer that was taken out of the set, with a new deadline. */
    method PutBack(a: nat, t: Timer) returns (front: bool)
      requires a in timer && Known(timer, timers) && Sorted(timer, timers) && a !in timers
      modifies `timer, `timers, `tickled
      ensures T.PutIn(old(State()), a, t) == (State(), front)
    {
      OutsideSet(timer, timers, a, t);
      ghost var was: map<nat, Timer> := timer;
      timer := timer[a := t];
      assert was[a := t][a := t] == was[a := t];
      front := PutIn(a);
    }

    method GetNextTimer(now: nat) returns (ms: nat)
      requires Coherent(State())
      modifies `tickled
      ensures Coherent(State()) && T.GetNextTimer(old(State()), now) == (State(), ms)
    {
      tickled := false;
      if timers == [] {
        return NEVER;
      }
      var next := timer[timers[0]].next;
      ms := if now >= next then 0 else next - now;
    }

    lemma CoherentIsKnown(s: T.State)
      requires Coherent(s)
      ensures Known(s.timer, s.order)
      ensures forall now :: Coherent(s.(previous := now))
    {}

    /** probe is the address of the timer that is made up to search for now. */
    method ListExpiredCb(now: nat, probe: nat) returns (cbs: seq<Option<nat>>)
      requires Coherent(State())
      modifies this
      ensures Coherent(State()) && ListExpired(old(State()), now) == (State(), cbs)
    {
      hide FireAll, Callbacks, Due, Coherent;
      cbs := [];
      CoherentIsKnown(State());
      if timers == [] {
        return;
      }
      var rollover := RolledOver(previousTime, now);
      previousTime := now;
      if !rollover && timer[timers[0]].next > now {
        return;
      }
      var it := |timers|;
      if !rollover {
        it := EndOfDue(now, probe);
      }
      FiredCoherent(State(), it, now);
      cbs := Fire(it, now);
    }

    method EndOfDue(now: nat, probe: nat) returns (it: nat)
      requires Coherent(State())
      ensures it == Due(timer, timers, now)
    {
      ProbeDoesNotMatter(timer, timers, now, probe);
      it := LowerBound(timer, timers, now, probe);
      while it < |timers| && timer[timers[it]].next == now
        invariant it <= |timers| && SkipEqual(timer, timers, now, it) == Due(timer, timers, now)
      {
        it := it + 1;
      }
    }

    /** Takes the first it timers out of the set and goes through them. */
    method Fire(it: nat, now: nat) returns (cbs: seq<Option<nat>>)
      requires Coherent(State()) && it <= |timers|
      modifies `timer, `timers
      ensures FireAll(old(timer), old(timers)[it..], old(timers)[..it], now) == (timer, timers)
      ensures cbs == Callbacks(old(timer), old(timers)[..it])
    {
      hide FireAll, Callbacks, Insert, Coherent, Sorted;
      CoherentIsSorted(State(), it);
      var expired := timers[..it];
      timers := timers[it..];
      cbs := [];
      var i := 0;
      assert expired[0..] == expired;
      while i < |expired|
        invariant 0 <= i <= |expired| && Known(timer, timers) && Known(timer, expired)
        invariant forall j | i <= j < |expired| :: timer[expired[j]] == old(timer)[expired[j]]
        invariant FireAll(timer, timers, expired[i..], now) == FireAll(old(timer), old(timers)[it..], expired, now)
        invariant cbs + Callbacks(old(timer), expired[i..]) == Callbacks(old(timer), expired)
      {
        var a := expired[i];
        FireOne(timer, timers, expired, i, now);
        CallbacksCons(old(timer), expired, i);
        Assoc(cbs, [timer[a].cb], Callbacks(old(timer), expired[i + 1..]));
        cbs := cbs + [timer[a].cb];
        if timer[a].recurring {
          timer := timer[a := timer[a].(next := Later(now, timer[a].ms))];
          timers := Insert(timer, timers, a);
        } else {
          timer := timer[a := timer[a].(cb := None)];
        }
        i := i + 1;
      }
      FireNone(timer, timers, now);
      NoCallbacks(old(timer));
      assert expired[i..] == [];
    }

    lemma CoherentIsSorted(s: T.State, it: nat)
      requires Coherent(s) && it <= |s.order|
      ensures Known(s.timer, s.order) && Known(s.timer, s.order[..it]) && Known(s.timer, s.order[it..]) && Distinct(s.order[..it])
    {
      SortedIsDistinct(s.timer, s.order);
    }

    lemma FireOne(timer: map<nat, Timer>, rest: seq<nat>, expired: seq<nat>, i: nat, now: nat)
      requires Known(timer, rest) && Known(timer, expired) && i < |expired|
      ensures var next := timer[expired[i] := Spent(timer[expired[i]], now)];
              FireAll(timer, rest, expired[i..], now) ==
                FireAll(next, if timer[expired[i]].recurring then Insert(next, rest, expired[i]) else rest, expired[i + 1..], now)
    {
      assert expired[i..][0] == expired[i] && expired[i..][1..] == expired[i + 1..];
    }

    lemma CallbacksCons(timer: map<nat, Timer>, order: seq<nat>, i: nat)
      requires Known(timer, order) && i < |order|
      ensures Callbacks(timer, order[i..]) == [timer[order[i]].cb] + Callbacks(timer, order[i + 1..])
    {
      assert order[i..][1..] == order[i + 1..];
    }

    lemma FireNone(timer: map<nat, Timer>, rest: seq<nat>, now: nat)
      requires Known(timer, rest)
      ensures FireAll(timer, rest, [], now) == (timer, rest)
    {}

    lemma NoCallbacks(timer: map<nat, Timer>)
      ensures Callbacks(timer, []) == []
    {}
  }
}
