/** Fibers of one thread: resume and yield swap contexts through three slots, those of the thread's
    main fiber, of its scheduling fiber and of the fiber itself. */
module Fibers {
  datatype State = READY | RUNNING | TERM

  /** A point in the life of a fiber, as swapcontext saves it. */
  datatype Context = Context(owner: nat, at: nat)

  /** MAIN is the thread's main fiber. On the thread of a caller scheduler ROOT runs the scheduler,
      on other threads the main fiber does. All others are scheduled fibers. */
  const MAIN := 0
  const ROOT := 1

  function SchedulerFiber(useCaller: bool): nat { if useCaller then ROOT else MAIN }

  /** Fibers that swap with the scheduling fiber. */
  predicate RunsInScheduler(f: nat) { f != MAIN && f != ROOT }

  /** The slot a fiber swaps with, when it is resumed and when it yields. */
  function Partner(useCaller: bool, f: nat): nat { if RunsInScheduler(f) then SchedulerFiber(useCaller) else MAIN }

  /** The fibers of a thread: saved contexts, states, t_fiber, who really runs, and how far each
      fiber has come (the last two are not variables of the source). */
  datatype Thread = Thread(ctx: map<nat, Context>, state: map<nat, State>, current: nat, runs: nat, at: map<nat, nat>)

  predicate WellFormed(t: Thread) {
    && t.ctx.Keys == t.state.Keys == t.at.Keys && t.runs in t.ctx && MAIN in t.ctx && t.current in t.ctx
  }

  /** swapcontext: what runs is saved in one slot, and what is in the other goes on from the point
      that was saved there, wherever its owner had really got to. */
  function Swap(t: Thread, save: nat, load: nat): Thread
    requires WellFormed(t) && save in t.ctx && load in t.ctx
  {
    var ctx := t.ctx[save := Context(t.runs, t.at[t.runs])];
    t.(ctx := ctx, runs := ctx[load].owner, at := t.at[ctx[load].owner := ctx[load].at])
  }

  predicate CanResume(t: Thread, f: nat)
    requires WellFormed(t)
  {
    f in t.ctx && f != MAIN && t.state[f] == READY
  }

  function Resume(useCaller: bool, t: Thread, f: nat): Thread
    requires WellFormed(t) && CanResume(t, f) && Partner(useCaller, f) in t.ctx
  {
    Swap(t.(current := f, state := t.state[f := RUNNING]), Partner(useCaller, f), f)
  }

  /** yield called on fiber f, which need not be the one that runs; done when its function has
      returned. */
  function Yield(useCaller: bool, t: Thread, f: nat, done: bool): Thread
    requires WellFormed(t) && f in t.ctx && f != MAIN && Partner(useCaller, f) in t.ctx
  {
    Swap(t.(current := MAIN, state := t.state[f := if done then TERM else READY]), f, Partner(useCaller, f))
  }

  /** The running fiber gets on with its work. */
  function Work(t: Thread): Thread
    requires WellFormed(t)
  {
    t.(at := t.at[t.runs := t.at[t.runs] + 1])
  }

  /** reset of a finished fiber: a fresh context at the start of its new function. */
  function Reset(t: Thread, f: nat): Thread
    requires WellFormed(t) && f in t.ctx && f != t.runs
  {
    t.(ctx := t.ctx[f := Context(f, 0)], at := t.at[f := 0], state := t.state[f := READY])
  }

  /** A fiber that has come as far as n elsewhere and was saved there. */
  function Arrive(t: Thread, f: nat, n: nat, done: bool): Thread
    requires WellFormed(t) && f != t.runs
  {
    t.(ctx := t.ctx[f := Context(f, n)], at := t.at[f := n], state := t.state[f := if done then TERM else READY])
  }

  // ---- what a disciplined thread keeps -------------------------------------------------------

  /** Every fiber that does not run can go on exactly where it left off. */
  predicate Intact(t: Thread)
    requires WellFormed(t)
  {
    forall f | f in t.ctx && f != t.runs :: t.ctx[f] == Context(f, t.at[f])
  }

  /** t_fiber names the fiber that runs, or the main fiber while the root fiber runs. */
  predicate CurrentOk(t: Thread) { t.current == t.runs || (t.runs == ROOT && t.current == MAIN) }

  /** Who may run: the main fiber, the root fiber, or a scheduled fiber; the states say so. */
  predicate Disciplined(useCaller: bool, t: Thread) {
    && WellFormed(t) && Intact(t) && CurrentOk(t) && (useCaller ==> ROOT in t.ctx)
    && (RunsInScheduler(t.runs) ==> t.state[t.runs] == RUNNING && (useCaller ==> t.state[ROOT] == RUNNING))
    && (t.runs == ROOT ==> useCaller && t.state[ROOT] == RUNNING)
    && (forall f | f in t.ctx && RunsInScheduler(f) && f != t.runs :: t.state[f] != RUNNING)
    && (t.runs == MAIN && useCaller ==> t.state[ROOT] != RUNNING)
  }

  /** The main fiber resumes the root fiber, and the scheduling fiber the scheduled ones. */
  predicate Allowed(useCaller: bool, t: Thread, f: nat) { t.runs == Partner(useCaller, f) }

  /** A resume loses no context exactly if the fiber that calls it is the partner of the fiber that
      is resumed; then the resumed fiber goes on where it left off. */
  lemma ResumeIsSafeExactly(useCaller: bool, t: Thread, f: nat)
    requires Disciplined(useCaller, t) && CanResume(t, f) && (f == ROOT ==> useCaller) && f != t.runs
    ensures var u := Resume(useCaller, t, f);
            && u.runs == f == u.current && WellFormed(u) && u.at == t.at
            && (Intact(u) <==> Allowed(useCaller, t, f))
            && (Allowed(useCaller, t, f) ==> Disciplined(useCaller, u) && u.ctx[t.runs] == Context(t.runs, t.at[t.runs]))
  {
    var p := Partner(useCaller, f);
    var u := Resume(useCaller, t, f);
    assert u.at == t.at;
    if !Allowed(useCaller, t, f) {
      assert p != f;
      assert u.ctx[p] == Context(t.runs, t.at[t.runs]);
    }
  }

  /** A yield goes back to the point where the partner resumed the fiber, and loses nothing. */
  lemma YieldReturns(useCaller: bool, t: Thread, f: nat, done: bool)
    requires Disciplined(useCaller, t) && t.runs == f && f != MAIN && (f == ROOT ==> done)
    ensures Partner(useCaller, f) in t.ctx
    ensures var u := Yield(useCaller, t, f, done);
            && u.runs == Partner(useCaller, f) && u.at == t.at && u.ctx[f] == Context(f, t.at[f])
            && Disciplined(useCaller, u) && u.current == MAIN
  {
    assert Yield(useCaller, t, f, done).at == t.at;
  }

  lemma WorkKeeps(useCaller: bool, t: Thread)
    requires Disciplined(useCaller, t)
    ensures Disciplined(useCaller, Work(t))
  {}

  lemma ResetKeeps(useCaller: bool, t: Thread, f: nat)
    requires Disciplined(useCaller, t) && f in t.ctx && RunsInScheduler(f) && f != t.runs && t.state[f] == TERM
    ensures Disciplined(useCaller, Reset(t, f))
  {}

  lemma ArriveKeeps(useCaller: bool, t: Thread, f: nat, n: nat, done: bool)
    requires Disciplined(useCaller, t) && RunsInScheduler(f) && f != t.runs
    ensures Disciplined(useCaller, Arrive(t, f, n, done))
  {}

  // ---- whole runs --------------------------------------------------------------------------------

  /** Besides what the thread does: a scheduled fiber may come to it, for the first time or again,
      having been at work on another thread meanwhile. */
  datatype Move =
    | DoWork | DoResume(f: nat) | DoYield(done: bool) | DoReset(f: nat)
    | DoArrive(f: nat, n: nat, done: bool)

  /** Whose yield is called: in the middle of its work a fiber asks t_fiber who it is; a fiber whose
      function has returned asked when it was entered, right behind its first resume. */
  function Yielder(t: Thread, done: bool): nat { if done then t.runs else t.current }

  /** The moves of a thread whose main fiber resumes only the root fiber, whose scheduling fiber
      resumes only scheduled fibers, and whose scheduled fibers only yield. */
  predicate Fair(useCaller: bool, t: Thread, m: Move) {
    WellFormed(t) &&
    match m
    case DoWork => true
    case DoResume(f) =>
      CanResume(t, f) && (f == ROOT ==> useCaller) && f != t.runs && Partner(useCaller, f) in t.ctx && Allowed(useCaller, t, f)
    case DoYield(done) =>
      && t.runs != MAIN && (t.runs == ROOT ==> done)
      && Yielder(t, done) != MAIN && Partner(useCaller, Yielder(t, done)) in t.ctx
    case DoReset(f) => f in t.ctx && RunsInScheduler(f) && f != t.runs && t.state[f] == TERM
    case DoArrive(f, n, _) => RunsInScheduler(f) && f != t.runs && (f in t.ctx ==> t.state[f] == READY && t.at[f] <= n)
  }

  function Apply(useCaller: bool, t: Thread, m: Move): Thread
    requires Fair(useCaller, t, m)
  {
    match m
    case DoWork => Work(t)
    case DoResume(f) => Resume(useCaller, t, f)
    case DoYield(done) => Yield(useCaller, t, Yielder(t, done), done)
    case DoReset(f) => Reset(t, f)
    case DoArrive(f, n, done) => Arrive(t, f, n, done)
  }

  /** The states of a run, one after each move; it ends at the first move that is not fair. */
  function Run(useCaller: bool, t: Thread, moves: seq<Move>): seq<Thread>
    decreases |moves|
  {
    if moves == [] || !Fair(useCaller, t, moves[0]) then [t]
    else [t] + Run(useCaller, Apply(useCaller, t, moves[0]), moves[1..])
  }

  lemma ApplyKeeps(useCaller: bool, t: Thread, m: Move)
    requires Disciplined(useCaller, t) && Fair(useCaller, t, m)
    ensures Disciplined(useCaller, Apply(useCaller, t, m))
  {
    match m
    case DoWork => WorkKeeps(useCaller, t);
    case DoResume(f) => ResumeIsSafeExactly(useCaller, t, f);
    case DoYield(done) => YieldReturns(useCaller, t, t.runs, done);
    case DoReset(f) => ResetKeeps(useCaller, t, f);
    case DoArrive(f, n, done) => ArriveKeeps(useCaller, t, f, n, done);
  }

  /** In every state of every such run all contexts are intact, and t_fiber names the fiber that
      runs, or the main fiber while the root fiber runs: a scheduled fiber that asks for itself
      gets itself. */
  lemma {:induction false} RunIsIntact(useCaller: bool, t: Thread, moves: seq<Move>, i: nat)
    requires Disciplined(useCaller, t) && i < |Run(useCaller, t, moves)|
    ensures var u := Run(useCaller, t, moves)[i];
            && Disciplined(useCaller, u)
            && (u.current == u.runs || (u.runs == ROOT && u.current == MAIN))
            && (RunsInScheduler(u.runs) ==> forall done :: Yielder(u, done) == u.runs)
    decreases |moves|
  {
    if i > 0 {
      hide Disciplined, Fair, Apply;
      ApplyKeeps(useCaller, t, moves[0]);
      RunIsIntact(useCaller, Apply(useCaller, t, moves[0]), moves[1..], i - 1);
    }
  }

  lemma {:induction false} RunStep(useCaller: bool, t: Thread, moves: seq<Move>, i: nat)
    requires i + 1 < |Run(useCaller, t, moves)|
    ensures var s := Run(useCaller, t, moves);
            i < |moves| && Fair(useCaller, s[i], moves[i]) && s[i + 1] == Apply(useCaller, s[i], moves[i])
    decreases |moves|
  {
    if i > 0 { RunStep(useCaller, Apply(useCaller, t, moves[0]), moves[1..], i - 1); }
  }

  // ---- there and back ----------------------------------------------------------------------------

  /** A move leaves alone how far the others have come, but for a fiber that is reset. */
  lemma OthersStay(useCaller: bool, t: Thread, m: Move, p: nat)
    requires Disciplined(useCaller, t) && Fair(useCaller, t, m) && p in t.ctx && !RunsInScheduler(p)
    requires p == t.runs ==> !m.DoWork?
    ensures p in Apply(useCaller, t, m).at && Apply(useCaller, t, m).at[p] == t.at[p]
  {
    match m
    case DoWork =>
    case DoResume(f) => ResumeIsSafeExactly(useCaller, t, f);
    case DoYield(done) => YieldReturns(useCaller, t, t.runs, done);
    case DoReset(f) =>
    case DoArrive(f, n, done) =>
  }

  lemma InCtx(useCaller: bool, t: Thread)
    requires Disciplined(useCaller, t)
    ensures t.ctx.Keys == t.at.Keys && t.runs in t.ctx
  {}

  /** While a partner does not run it stays where it was. */
  lemma {:induction false} PartnerStays(useCaller: bool, t: Thread, moves: seq<Move>, p: nat, i: nat, j: nat)
    requires Disciplined(useCaller, t) && i <= j < |Run(useCaller, t, moves)| && !RunsInScheduler(p)
    requires var s := Run(useCaller, t, moves);
             && p in s[i].ctx && (i < j && s[i].runs == p ==> i < |moves| && !moves[i].DoWork?)
             && forall k | i < k < j :: s[k].runs != p
    ensures var s := Run(useCaller, t, moves); p in s[i].at && p in s[j].ctx && p in s[j].at && s[j].at[p] == s[i].at[p]
    decreases j
  {
    hide Run, Disciplined, Fair, Apply, RunsInScheduler;
    RunIsIntact(useCaller, t, moves, j);
    InCtx(useCaller, Run(useCaller, t, moves)[j]);
    if i < j {
      PartnerStays(useCaller, t, moves, p, i, j - 1);
      RunStep(useCaller, t, moves, j - 1);
      RunIsIntact(useCaller, t, moves, j - 1);
      InCtx(useCaller, Run(useCaller, t, moves)[j - 1]);
      OthersStay(useCaller, Run(useCaller, t, moves)[j - 1], moves[j - 1], p);
    }
  }

  /** What runs between two states: f itself if it is a scheduled fiber; for the root fiber it and
      those it resumes, but not the main fiber. */
  predicate Between(s: seq<Thread>, f: nat, i: nat, j: nat)
    requires j < |s|
  {
    forall k | i < k <= j :: if RunsInScheduler(f) then s[k].runs == f else s[k].runs != MAIN
  }

  /** What a move does to who runs, and to t_fiber. */
  predicate Moved(useCaller: bool, t: Thread, m: Move, u: Thread) {
    match m
    case DoResume(f) => u.runs == f == u.current && f != MAIN && t.runs == Partner(useCaller, f)
    case DoYield(_) => t.runs != MAIN && u.runs == Partner(useCaller, t.runs) && u.current == MAIN
    case _ => u.runs == t.runs && u.current == t.current
  }

  lemma WhoRuns(useCaller: bool, t: Thread, m: Move)
    requires Disciplined(useCaller, t) && Fair(useCaller, t, m)
    ensures Moved(useCaller, t, m, Apply(useCaller, t, m))
  {
    match m
    case DoResume(f) => ResumeIsSafeExactly(useCaller, t, f);
    case DoYield(done) => YieldReturns(useCaller, t, t.runs, done);
    case _ =>
  }

  lemma MovedInRun(useCaller: bool, t: Thread, moves: seq<Move>, j: nat)
    requires Disciplined(useCaller, t) && 0 < j < |Run(useCaller, t, moves)|
    ensures var s := Run(useCaller, t, moves); j - 1 < |moves| && Moved(useCaller, s[j - 1], moves[j - 1], s[j])
  {
    hide Run, Disciplined, Fair, Apply, Moved;
    RunStep(useCaller, t, moves, j - 1);
    RunIsIntact(useCaller, t, moves, j - 1);
    WhoRuns(useCaller, Run(useCaller, t, moves)[j - 1], moves[j - 1]);
  }

  lemma FirstInRun(useCaller: bool, t: Thread, moves: seq<Move>)
    ensures |Run(useCaller, t, moves)| > 0 && Run(useCaller, t, moves)[0] == t
  {}

  /** Whatever runs was resumed by its partner, and since then only it ran and what it resumed. */
  lemma {:induction false} Resumer(useCaller: bool, t: Thread, moves: seq<Move>, j: nat)
    returns (i: nat)
    requires Disciplined(useCaller, t) && t.runs == MAIN && j < |Run(useCaller, t, moves)|
    requires Run(useCaller, t, moves)[j].runs != MAIN
    ensures var s := Run(useCaller, t, moves);
            && i < j && i < |moves| && moves[i] == DoResume(s[j].runs) && s[i].runs == Partner(useCaller, s[j].runs)
            && Between(s, s[j].runs, i, j)
    decreases j
  {
    hide Run, Disciplined, Fair, Apply;
    var s := Run(useCaller, t, moves);
    FirstInRun(useCaller, t, moves);
    MovedInRun(useCaller, t, moves, j);
    match moves[j - 1] {
      case DoResume(f) =>
        i := j - 1;
      case DoYield(done) =>
        var inner := Resumer(useCaller, t, moves, j - 1);
        i := Resumer(useCaller, t, moves, inner);
      case _ =>
        i := Resumer(useCaller, t, moves, j - 1);
    }
  }

  /** Every yield lands where its partner was when it last resumed: move i resumed the fiber that
      yields, its partner has not run since, and goes on at the very point where it was then,
      whatever was resumed, worked, yielded, reset and arrived in between. */
  lemma ThereAndBack(useCaller: bool, t: Thread, moves: seq<Move>, j: nat)
    returns (i: nat)
    requires Disciplined(useCaller, t) && t.runs == MAIN && j + 1 < |Run(useCaller, t, moves)| && j < |moves| && moves[j].DoYield?
    ensures var s := Run(useCaller, t, moves);
            var p := s[j + 1].runs;
            && i < j && moves[i] == DoResume(s[j].runs) && s[i].runs == p == Partner(useCaller, s[j].runs)
            && (forall k | i < k <= j :: s[k].runs != p)
            && p in s[i].at && p in s[j + 1].at && s[j + 1].at[p] == s[i].at[p]
  {
    hide Run, Disciplined, Fair, Apply;
    var s := Run(useCaller, t, moves);
    MovedInRun(useCaller, t, moves, j + 1);
    i := Resumer(useCaller, t, moves, j);
    RunIsIntact(useCaller, t, moves, i);
    InCtx(useCaller, s[i]);
    PartnerStays(useCaller, t, moves, s[j + 1].runs, i, j + 1);
  }

  // ---- t_fiber -------------------------------------------------------------------------------------

  /** After a yield t_fiber names the fiber that runs exactly if the main fiber does: on a thread
      without a caller scheduler, or when the root fiber has ended. After a scheduled fiber of a
      caller scheduler has yielded the root fiber runs, and t_fiber is the main fiber. */
  lemma CurrentIsRunningExactly(useCaller: bool, t: Thread, f: nat, done: bool)
    requires Disciplined(useCaller, t) && t.runs == f && f != MAIN && (f == ROOT ==> done)
    ensures Partner(useCaller, f) in t.ctx
    ensures var u := Yield(useCaller, t, f, done);
            && (u.current == u.runs <==> !useCaller || f == ROOT)
            && (useCaller && RunsInScheduler(f) ==> u.runs == ROOT && u.current == MAIN)
  {
    YieldReturns(useCaller, t, f, done);
  }

  /** In every state of a run from the main fiber t_fiber fails to name the fiber that runs exactly
      if the root fiber runs and has resumed another one since the main fiber resumed it. */
  lemma CurrentInRun(useCaller: bool, t: Thread, moves: seq<Move>, j: nat)
    returns (i: nat)
    requires Disciplined(useCaller, t) && t.runs == MAIN && j < |Run(useCaller, t, moves)|
    ensures var s := Run(useCaller, t, moves);
            && i <= j && (s[j].runs == ROOT ==> i < j && i < |moves| && moves[i] == DoResume(ROOT) && Between(s, ROOT, i, j))
            && (s[j].current == s[j].runs <==> s[j].runs != ROOT || forall k | i < k <= j :: s[k].runs == ROOT)
  {
    var s := Run(useCaller, t, moves);
    RunIsIntact(useCaller, t, moves, j);
    i := j;
    if s[j].runs == ROOT {
      i := Resumer(useCaller, t, moves, j);
      CurrentSince(useCaller, t, moves, i, j);
    }
  }

  lemma {:induction false} CurrentSince(useCaller: bool, t: Thread, moves: seq<Move>, i: nat, j: nat)
    requires Disciplined(useCaller, t) && i < j < |Run(useCaller, t, moves)| && i < |moves| && moves[i] == DoResume(ROOT)
    requires Between(Run(useCaller, t, moves), ROOT, i, j)
    ensures var s := Run(useCaller, t, moves);
            s[j].runs == ROOT ==> (s[j].current == ROOT <==> forall k | i < k <= j :: s[k].runs == ROOT)
    decreases j
  {
    hide Run, Disciplined, Fair, Apply;
    var s := Run(useCaller, t, moves);
    MovedInRun(useCaller, t, moves, j);
    if j > i + 1 { CurrentSince(useCaller, t, moves, i, j - 1); }
  }

  // ---- the fibers as they run ----------------------------------------------------------------------

  class FiberThread {
    const useCaller: bool
    var state: map<nat, State>
    /** t_fiber. */
    var current: nat
    /** What swapcontext saves and restores, which fiber really runs, and how far each has come. */
    ghost var ctx: map<nat, Context>
    ghost var runs: nat
    ghost var at: map<nat, nat>

    ghost function Now(): Thread
      reads this
    {
      Thread(ctx, state, current, runs, at)
    }

    /** A thread with its main fiber, and the root fiber if it is the caller's. */
    constructor (caller: bool)
      ensures useCaller == caller && Disciplined(caller, Now()) && runs == MAIN
    {
      useCaller := caller;
      ctx := if caller then map[MAIN := Context(MAIN, 0), ROOT := Context(ROOT, 0)] else map[MAIN := Context(MAIN, 0)];
      state := if caller then map[MAIN := RUNNING, ROOT := READY] else map[MAIN := RUNNING];
      at := if caller then map[MAIN := 0, ROOT := 0] else map[MAIN := 0];
      current, runs := MAIN, MAIN;
    }

    /** swapcontext, which is not part of the source. */
    ghost method SwapContext(save: nat, load: nat)
      requires WellFormed(Now()) && save in ctx && load in ctx
      modifies `ctx, `runs, `at
      ensures Now() == Swap(old(Now()), save, load)
    {
      ctx := ctx[save := Context(runs, at[runs])];
      runs, at := ctx[load].owner, at[ctx[load].owner := ctx[load].at];
    }

    method Resume(f: nat)
      requires Disciplined(useCaller, Now()) && CanResume(Now(), f) && (f == ROOT ==> useCaller) && f != runs
      requires Allowed(useCaller, Now(), f)
      modifies this
      ensures Disciplined(useCaller, Now()) && runs == f == current && at == old(at)
      ensures state == old(state)[f := RUNNING] && ctx[old(runs)] == Context(old(runs), at[old(runs)])
    {
      ResumeIsSafeExactly(useCaller, Now(), f);
      current := f;
      state := state[f := RUNNING];
      if RunsInScheduler(f) {
        SwapContext(SchedulerFiber(useCaller), f);
      } else {
        SwapContext(MAIN, f);
      }
    }

    /** yield of fiber f, which runs. */
    method Yield(f: nat, done: bool)
      requires Disciplined(useCaller, Now()) && runs == f != MAIN && (f == ROOT ==> done)
      modifies this
      ensures Disciplined(useCaller, Now()) && runs == Partner(useCaller, f) && at == old(at)
      ensures current == MAIN && (current == runs <==> !useCaller || f == ROOT)
      ensures state == old(state)[f := if done then TERM else READY] && ctx[f] == Context(f, at[f])
    {
      YieldReturns(useCaller, Now(), f, done);
      current := MAIN;
      state := state[f := if done then TERM else READY];
      if RunsInScheduler(f) {
        SwapContext(f, SchedulerFiber(useCaller));
      } else {
        SwapContext(f, MAIN);
      }
    }

    /** GetThis()->yield(), as idle and hooked calls do: in a scheduled fiber it is that fiber's. */
    method YieldThis()
      requires Disciplined(useCaller, Now()) && RunsInScheduler(runs)
      modifies this
      ensures Disciplined(useCaller, Now()) && runs == Partner(useCaller, old(runs)) && at == old(at)
      ensures state == old(state)[old(runs) := READY] && ctx[old(runs)] == Context(old(runs), at[old(runs)])
    {
      Yield(current, false);
    }
  }
}
