/** Timers of the IOManager: a set ordered by deadline and then by address. */
module Timers {
  import opened Options

  const WORD: nat := 0x1_0000_0000_0000_0000
  const NEVER: nat := WORD - 1
  const HOUR: nat := 60 * 60 * 1000

  /** A timer; without a callback it is cancelled or spent. */
  datatype Timer = Timer(next: nat, ms: nat, recurring: bool, cb: Option<nat>)

  /** All timers there are, by address, and the addresses in the set, in the set's order. */
  datatype State = State(timer: map<nat, Timer>, order: seq<nat>, tickled: bool, previous: nat)

  /** uint64_t addition. */
  function Later(now: nat, ms: nat): nat { (now + ms) % WORD }

  // ---- the order ---------------------------------------------------------------------------

  /** The comparator. */
  predicate Before(timer: map<nat, Timer>, a: nat, b: nat)
    requires a in timer && b in timer
  {
    timer[a].next < timer[b].next || (timer[a].next == timer[b].next && a < b)
  }

  predicate Known(timer: map<nat, Timer>, order: seq<nat>) { forall i | 0 <= i < |order| :: order[i] in timer }

  predicate Sorted(timer: map<nat, Timer>, order: seq<nat>)
    requires Known(timer, order)
  {
    forall i, j | 0 <= i < j < |order| :: Before(timer, order[i], order[j])
  }

  /** std::set::insert of an element that is not there. */
  function Insert(timer: map<nat, Timer>, order: seq<nat>, a: nat): (r: seq<nat>)
    requires Known(timer, order) && a in timer
    ensures |r| == |order| + 1 && Known(timer, r)
  {
    if order == [] || Before(timer, a, order[0]) then [a] + order else [order[0]] + Insert(timer, order[1..], a)
  }

  function Erase(order: seq<nat>, a: nat): seq<nat> {
    if order == [] then [] else if order[0] == a then order[1..] else [order[0]] + Erase(order[1..], a)
  }

  lemma {:induction false} InsertKeeps(timer: map<nat, Timer>, order: seq<nat>, a: nat)
    requires Known(timer, order) && a in timer && Sorted(timer, order) && a !in order
    ensures var r := Insert(timer, order, a);
            && Known(timer, r) && Sorted(timer, r) && (forall x :: x in r <==> x == a || x in order)
            && (r[0] == a || (order != [] && r[0] == order[0]))
            && (r[0] == a <==> (forall x | x in order :: Before(timer, a, x)))
  {
    var r := Insert(timer, order, a);
    if order == [] {
    } else if Before(timer, a, order[0]) {
      assert r[1..] == order;
      forall x | x in order ensures Before(timer, a, x) {
        var i :| 0 <= i < |order| && order[i] == x;
      }
    } else {
      InsertKeeps(timer, order[1..], a);
      assert r[0] == order[0] && r[1..] == Insert(timer, order[1..], a);
      assert forall x :: x in r <==> x == r[0] || x in r[1..];
      assert forall x :: x in order <==> x == order[0] || x in order[1..];
      forall j | 1 <= j < |r| ensures Before(timer, r[0], r[j]) {
        var x := r[1..][j - 1];
        if x in order[1..] {
          var i :| 0 <= i < |order| - 1 && order[1..][i] == x;
        }
      }
      forall i, j | 0 <= i < j < |r| ensures Before(timer, r[i], r[j]) {
        if i > 0 { assert Before(timer, r[1..][i - 1], r[1..][j - 1]); }
      }
    }
  }

  lemma {:induction false} EraseKeeps(timer: map<nat, Timer>, order: seq<nat>, a: nat)
    requires Known(timer, order) && Sorted(timer, order)
    ensures var r := Erase(order, a);
            Known(timer, r) && Sorted(timer, r) && (forall x :: x in r <==> x != a && x in order)
  {
    if order != [] {
      var rest := order[1..];
      EraseKeeps(timer, rest, a);
      assert forall x :: x in order <==> x == order[0] || x in rest;
      if order[0] == a {
        assert a !in rest;
      } else {
        var r := Erase(order, a);
        assert r[1..] == Erase(rest, a) && r == [order[0]] + r[1..];
        forall j | 1 <= j < |r| ensures Before(timer, r[0], r[j]) {
          assert r[1..][j - 1] in rest;
        }
      }
    }
  }

  // ---- what every state keeps ----------------------------------------------------------------

  /** A timer is in the set exactly while it has its callback. */
  predicate Coherent(s: State) {
    && Known(s.timer, s.order) && Sorted(s.timer, s.order)
    && forall a | a in s.timer :: a in s.order <==> s.timer[a].cb.Some?
  }

  /** Changing a timer outside the set does not disturb the order. */
  lemma OutsideSet(timer: map<nat, Timer>, order: seq<nat>, a: nat, t: Timer)
    requires Known(timer, order) && Sorted(timer, order) && a !in order
    ensures Known(timer[a := t], order) && Sorted(timer[a := t], order)
  {
    forall i, j | 0 <= i < j < |order| ensures Before(timer[a := t], order[i], order[j]) {
      assert Before(timer, order[i], order[j]);
    }
  }

  // ---- the operations as functions ---------------------------------------------------------------

  /** The private addTimer: the timer is put in, and whoever sleeps is told if it is now the
      first and nobody has been told yet. */
  function PutIn(s: State, a: nat, t: Timer): (r: (State, bool))
    requires Known(s.timer, s.order)
  {
    var timer := s.timer[a := t];
    var order := Insert(timer, s.order, a);
    var front := order[0] == a && !s.tickled;
    (State(timer, order, s.tickled || front, s.previous), front)
  }

  function AddTimer(s: State, a: nat, ms: nat, cb: nat, recurring: bool, now: nat): (State, bool)
    requires Known(s.timer, s.order)
  {
    PutIn(s, a, Timer(Later(now, ms), ms, recurring, Some(cb)))
  }

  function Cancel(s: State, a: nat): (State, bool)
    requires a in s.timer
  {
    if s.timer[a].cb.None? then (s, false)
    else (s.(timer := s.timer[a := s.timer[a].(cb := None)], order := Erase(s.order, a)), true)
  }

  /** A new period from now on; nobody is told. */
  function Refresh(s: State, a: nat, now: nat): (State, bool)
    requires a in s.timer && Coherent(s)
  {
    if s.timer[a].cb.None? then (s, false)
    else
      EraseKeeps(s.timer, s.order, a);
      var timer := s.timer[a := s.timer[a].(next := Later(now, s.timer[a].ms))];
      (s.(timer := timer, order := Insert(timer, Erase(s.order, a), a)), true)
  }

  /** reset: the new state, its result and whether somebody was told. */
  function Reset(s: State, a: nat, ms: nat, fromNow: bool, now: nat): (State, bool, bool)
    requires a in s.timer && Coherent(s)
  {
    var t := s.timer[a];
    if ms == t.ms && !fromNow then (s, true, false)
    else if t.cb.None? then (s, false, false)
    else
      EraseKeeps(s.timer, s.order, a);
      var start := if fromNow then now else (t.next + WORD - t.ms) % WORD;
      var (r, front) := PutIn(s.(order := Erase(s.order, a)), a, t.(ms := ms, next := Later(start, ms)));
      (r, true, front)
  }

  function GetNextTimer(s: State, now: nat): (State, nat)
    requires Known(s.timer, s.order)
  {
    (s.(tickled := false),
     if s.order == [] then NEVER
     else if now >= s.timer[s.order[0]].next then 0 else s.timer[s.order[0]].next - now)
  }

  predicate RolledOver(previous: nat, now: nat) { now < previous && now < (previous + WORD - HOUR) % WORD }

  /** How many timers from the first on have expired. */
  function Due(timer: map<nat, Timer>, order: seq<nat>, now: nat): (k: nat)
    requires Known(timer, order)
    ensures k <= |order|
    ensures forall i | 0 <= i < k :: timer[order[i]].next <= now
    ensures k < |order| ==> timer[order[k]].next > now
  {
    if order == [] || timer[order[0]].next > now then 0 else 1 + Due(timer, order[1..], now)
  }

  /** lower_bound of a fresh timer with deadline now, which may have any address. */
  function LowerBound(timer: map<nat, Timer>, order: seq<nat>, now: nat, probe: nat): (k: nat)
    requires Known(timer, order)
    ensures k <= |order|
  {
    if order == [] || timer[order[0]].next > now || (timer[order[0]].next == now && probe <= order[0]) then 0
    else 1 + LowerBound(timer, order[1..], now, probe)
  }

  /** From there on, past the timers with exactly this deadline. */
  function SkipEqual(timer: map<nat, Timer>, order: seq<nat>, now: nat, from: nat): (k: nat)
    requires Known(timer, order) && from <= |order|
    ensures from <= k <= |order|
    decreases |order| - from
  {
    if from < |order| && timer[order[from]].next == now then SkipEqual(timer, order, now, from + 1) else from
  }

  /** Whatever the address of the probe, that is where the expired timers end. */
  lemma {:induction false} ProbeDoesNotMatter(timer: map<nat, Timer>, order: seq<nat>, now: nat, probe: nat)
    requires Known(timer, order) && Sorted(timer, order)
    ensures SkipEqual(timer, order, now, LowerBound(timer, order, now, probe)) == Due(timer, order, now)
  {
    var k := LowerBound(timer, order, now, probe);
    if order == [] || timer[order[0]].next > now {
    } else if timer[order[0]].next == now && probe <= order[0] {
      SkipIsDue(timer, order, now, 0);
    } else {
      ProbeDoesNotMatter(timer, order[1..], now, probe);
      SkipShift(timer, order, now, k - 1);
    }
  }

  lemma {:induction false} SkipShift(timer: map<nat, Timer>, order: seq<nat>, now: nat, from: nat)
    requires Known(timer, order) && from + 1 <= |order|
    ensures SkipEqual(timer, order, now, from + 1) == 1 + SkipEqual(timer, order[1..], now, from)
    decreases |order| - from
  {
    if from + 1 < |order| && timer[order[from + 1]].next == now { SkipShift(timer, order, now, from + 1); }
  }

  lemma {:induction false} SkipIsDue(timer: map<nat, Timer>, order: seq<nat>, now: nat, from: nat)
    requires Known(timer, order) && Sorted(timer, order) && from <= |order|
    requires forall i | 0 <= i < |order| :: timer[order[i]].next >= now
    ensures SkipEqual(timer, order, now, from) == from + Due(timer, order[from..], now)
    decreases |order| - from
  {
    if from < |order| && timer[order[from]].next == now {
      SkipIsDue(timer, order, now, from + 1);
      assert order[from..][1..] == order[from + 1..];
    }
  }

  function Callbacks(timer: map<nat, Timer>, order: seq<nat>): seq<Option<nat>>
    requires Known(timer, order)
  {
    if order == [] then [] else [timer[order[0]].cb] + Callbacks(timer, order[1..])
  }

  function Spent(t: Timer, now: nat): Timer {
    if t.recurring then t.(next := Later(now, t.ms)) else t.(cb := None)
  }

  /** The expired timers, one after the other: put back for another period, or spent. */
  function FireAll(timer: map<nat, Timer>, rest: seq<nat>, expired: seq<nat>, now: nat): (map<nat, Timer>, seq<nat>)
    requires Known(timer, rest) && Known(timer, expired)
    decreases |expired|
  {
    if expired == [] then (timer, rest)
    else
      var a := expired[0];
      var next := timer[a := Spent(timer[a], now)];
      FireAll(next, if timer[a].recurring then Insert(next, rest, a) else rest, expired[1..], now)
  }

  function ListExpired(s: State, now: nat): (State, seq<Option<nat>>)
    requires Known(s.timer, s.order)
  {
    if s.order == [] then (s, [])
    else
      var rollover := RolledOver(s.previous, now);
      if !rollover && s.timer[s.order[0]].next > now then (s.(previous := now), [])
      else
        var k := if rollover then |s.order| else Due(s.timer, s.order, now);
        var (timer, order) := FireAll(s.timer, s.order[k..], s.order[..k], now);
        (State(timer, order, s.tickled, now), Callbacks(s.timer, s.order[..k]))
  }

  // ---- each operation keeps the set coherent -------------------------------------------------------

  lemma PutInKeeps(s: State, a: nat, t: Timer)
    requires Known(s.timer, s.order) && Sorted(s.timer, s.order) && a !in s.order && t.cb.Some?
    requires forall b | b in s.timer && b != a :: b in s.order <==> s.timer[b].cb.Some?
    ensures Coherent(PutIn(s, a, t).0) && a in PutIn(s, a, t).0.order
  {
    OutsideSet(s.timer, s.order, a, t);
    InsertKeeps(s.timer[a := t], s.order, a);
  }

  lemma AddTimerKeeps(s: State, a: nat, ms: nat, cb: nat, recurring: bool, now: nat)
    requires Coherent(s) && a !in s.timer
    ensures Coherent(AddTimer(s, a, ms, cb, recurring, now).0)
  {
    PutInKeeps(s, a, Timer(Later(now, ms), ms, recurring, Some(cb)));
  }

  lemma CancelKeeps(s: State, a: nat)
    requires Coherent(s) && a in s.timer
    ensures var (r, done) := Cancel(s, a); Coherent(r) && a !in r.order && done == (a in s.order)
  {
    EraseKeeps(s.timer, s.order, a);
    OutsideSet(s.timer, Erase(s.order, a), a, s.timer[a].(cb := None));
  }

  lemma RefreshKeeps(s: State, a: nat, now: nat)
    requires Coherent(s) && a in s.timer
    ensures var (r, done) := Refresh(s, a, now);
            && Coherent(r) && done == (a in s.order) && r.tickled == s.tickled
            && (done ==> a in r.order && r.timer == s.timer[a := s.timer[a].(next := Later(now, s.timer[a].ms))])
  {
    EraseKeeps(s.timer, s.order, a);
    if s.timer[a].cb.Some? { PutInKeeps(s.(order := Erase(s.order, a)), a, s.timer[a].(next := Later(now, s.timer[a].ms))); }
  }

  lemma ResetKeeps(s: State, a: nat, ms: nat, fromNow: bool, now: nat)
    requires Coherent(s) && a in s.timer
    ensures Coherent(Reset(s, a, ms, fromNow, now).0)
  {
    hide PutIn, Erase, Sorted;
    EraseKeeps(s.timer, s.order, a);
    var t := s.timer[a];
    var start := if fromNow then now else (t.next + WORD - t.ms) % WORD;
    if t.cb.Some? { PutInKeeps(s.(order := Erase(s.order, a)), a, t.(ms := ms, next := Later(start, ms))); }
  }

  // ---- expiry ----------------------------------------------------------------------------------------

  predicate Distinct(s: seq<nat>) { forall i, j | 0 <= i < j < |s| :: s[i] != s[j] }

  lemma {:induction false} FireAllKeeps(timer: map<nat, Timer>, rest: seq<nat>, expired: seq<nat>, now: nat)
    requires Known(timer, rest) && Known(timer, expired) && Sorted(timer, rest) && Distinct(expired)
    requires forall x | x in expired :: x !in rest
    ensures var (after, order) := FireAll(timer, rest, expired, now);
            && after.Keys == timer.Keys && Known(after, order) && Sorted(after, order)
            && (forall x :: x in order <==> x in rest || (x in expired && timer[x].recurring))
            && (forall x | x in timer :: after[x] == if x in expired then Spent(timer[x], now) else timer[x])
    decreases |expired|
  {
    if expired != [] {
      var a, more := expired[0], expired[1..];
      var next := timer[a := Spent(timer[a], now)];
      assert forall x :: x in expired <==> x == a || x in more;
      assert a !in more;
      OutsideSet(timer, rest, a, Spent(timer[a], now));
      InsertKeeps(next, rest, a);
      FireAllKeeps(next, if timer[a].recurring then Insert(next, rest, a) else rest, more, now);
    }
  }

  lemma {:induction false} CallbacksAt(timer: map<nat, Timer>, order: seq<nat>, i: nat)
    requires Known(timer, order) && i < |order|
    ensures |Callbacks(timer, order)| == |order| && Callbacks(timer, order)[i] == timer[order[i]].cb
  {
    if |order| > 1 { CallbacksAt(timer, order[1..], if i > 0 then i - 1 else 0); }
  }

  lemma SortedIsDistinct(timer: map<nat, Timer>, order: seq<nat>)
    requires Known(timer, order) && Sorted(timer, order)
    ensures Distinct(order)
  {
    forall i, j | 0 <= i < j < |order| ensures order[i] != order[j] {
      assert Before(timer, order[i], order[j]);
    }
  }

  /** Unless the clock jumped back, exactly the timers in the set with a deadline up to now fire,
      in the order of their deadlines, each with its own callback; recurring ones stay, with a
      deadline one period from now, the others are spent, and nothing else changes. */
  lemma ExpiryIsExact(s: State, now: nat)
    requires Coherent(s) && (s.order != [] ==> !RolledOver(s.previous, now))
    ensures var (r, cbs) := ListExpired(s, now);
            var k := Due(s.timer, s.order, now);
            && |cbs| == k
            && (forall i | 0 <= i < k :: cbs[i] == s.timer[s.order[i]].cb && cbs[i].Some?)
            && (forall i, j | 0 <= i < j < k :: s.timer[s.order[i]].next <= s.timer[s.order[j]].next)
            && (forall a | a in s.order :: s.timer[a].next <= now <==> a in s.order[..k])
            && Coherent(r) && r.timer.Keys == s.timer.Keys
            && (forall a | a in s.timer ::
                  r.timer[a] == if a in s.order && s.timer[a].next <= now then Spent(s.timer[a], now) else s.timer[a])
  {
    var k := Due(s.timer, s.order, now);
    var expired, rest := s.order[..k], s.order[k..];
    DueSplits(s, now);
    forall i | 0 <= i < k ensures |Callbacks(s.timer, expired)| == k && Callbacks(s.timer, expired)[i] == s.timer[s.order[i]].cb {
      CallbacksAt(s.timer, expired, i);
    }
    SortedIsDistinct(s.timer, s.order);
    SplitsApart(s.order, k);
    if k > 0 {
      FireAllKeeps(s.timer, rest, expired, now);
      FiredCoherent(s, k, now);
    } else {
      assert expired == [] && rest == s.order;
    }
  }

  lemma PreviousIsPast(s: State, now: nat)
    requires Known(s.timer, s.order)
    ensures ListExpired(s, now).0.previous == s.previous || ListExpired(s, now).0.previous == now
    ensures ListExpired(s, now).0.tickled == s.tickled
  {
    hide FireAll, Callbacks, Due;
  }

  lemma SplitsApart(s: seq<nat>, k: nat)
    requires k <= |s| && Distinct(s)
    ensures forall x | x in s[..k] :: x !in s[k..]
    ensures forall x :: x in s <==> x in s[..k] || x in s[k..]
  {
    assert s == s[..k] + s[k..];
  }

  lemma DueSplits(s: State, now: nat)
    requires Coherent(s)
    ensures var k := Due(s.timer, s.order, now);
            && (forall a | a in s.order :: s.timer[a].next <= now <==> a in s.order[..k])
            && (forall i, j | 0 <= i < j < k :: s.timer[s.order[i]].next <= s.timer[s.order[j]].next)
  {
    var k := Due(s.timer, s.order, now);
    forall a | a in s.order ensures s.timer[a].next <= now <==> a in s.order[..k] {
      var i :| 0 <= i < |s.order| && s.order[i] == a;
      if k < i { assert Before(s.timer, s.order[k], s.order[i]); }
    }
    forall i, j | 0 <= i < j < k ensures s.timer[s.order[i]].next <= s.timer[s.order[j]].next {
      assert Before(s.timer, s.order[i], s.order[j]);
    }
  }

  lemma FiredCoherent(s: State, k: nat, now: nat)
    requires Coherent(s) && k <= |s.order|
    ensures var (after, order) := FireAll(s.timer, s.order[k..], s.order[..k], now);
            Coherent(State(after, order, s.tickled, now))
  {
    SortedIsDistinct(s.timer, s.order);
    SplitsApart(s.order, k);
    FireAllKeeps(s.timer, s.order[k..], s.order[..k], now);
  }

  /** After a clock that jumped back by more than an hour everything fires. */
  lemma RolloverFiresAll(s: State, now: nat)
    requires Coherent(s) && s.order != [] && RolledOver(s.previous, now)
    ensures var (r, cbs) := ListExpired(s, now);
            && |cbs| == |s.order| && (forall i | 0 <= i < |cbs| :: cbs[i] == s.timer[s.order[i]].cb) && Coherent(r)
  {
    assert s.order[..|s.order|] == s.order;
    forall i | 0 <= i < |s.order|
      ensures |Callbacks(s.timer, s.order)| == |s.order| && Callbacks(s.timer, s.order)[i] == s.timer[s.order[i]].cb
    {
      CallbacksAt(s.timer, s.order, i);
    }
    FiredCoherent(s, |s.order|, now);
  }

  // ---- deadlines do not move earlier behind the sleeper's back ---------------------------------------

  /** Every timer was armed at or before now, and the sums fit a word. */
  predicate ArmedBy(s: State, now: nat) {
    forall a | a in s.order && a in s.timer :: s.timer[a].ms <= s.timer[a].next <= now + s.timer[a].ms && now + s.timer[a].ms < WORD
  }

  /** refresh tells nobody and need not: it never moves a deadline earlier. */
  lemma RefreshMovesLater(s: State, a: nat, now: nat)
    requires Coherent(s) && a in s.order && a in s.timer && ArmedBy(s, now)
    ensures Refresh(s, a, now).0.timer[a].next >= s.timer[a].next
  {
    RefreshKeeps(s, a, now);
  }
}
