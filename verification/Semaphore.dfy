/** The two-counter semaphore: `wait_count_` is wakeups minus waits, `wakeup_count_` the
    wakeups granted to blocked waiters and not yet taken. */
module Semaphores {
  import opened Basics
  import opened Conditions

  datatype Sem = Sem(waitCount: int, wakeupCount: int, cond: Cond) {
    function Blocked(): nat { |cond.asleep| + |cond.notified| }

    /** Blocked waiters are those with a grant to take plus those without; and every grant
        has a runnable waiter, so none is stranded. */
    predicate Valid() {
      && cond.Valid()
      && 0 <= wakeupCount <= |cond.notified|
      && Blocked() == wakeupCount + (if waitCount < 0 then -waitCount else 0)
    }

    /** The abstract counting semaphore this refines: permits not yet consumed. */
    function Permits(): int { (if waitCount > 0 then waitCount else 0) + wakeupCount }
  }

  const INITIAL: Sem := Sem(0, 0, EMPTY)

  /** `Wait` is the first pass of `wait`, `Recheck` that of a notified waiter. */
  datatype Action = Wait(t: Tid) | Recheck(t: Tid) | Wakeup(w: Choice) | Spurious(t: Tid)

  predicate Enabled(s: Sem, a: Action)
  {
    match a
    case Wait(t) => !s.cond.Waiting(t)
    case Recheck(t) => t in s.cond.notified
    case Wakeup(w) => if s.waitCount < 0 then s.cond.CanNotify(w) else w == Nobody
    case Spurious(t) => t in s.cond.asleep
  }

  function Apply(s: Sem, a: Action): Sem
    requires Enabled(s, a)
  {
    match a
    case Wait(t) =>
      var s1 := s.(waitCount := s.waitCount - 1);
      if s1.waitCount >= 0 then s1
      else if s1.wakeupCount > 0 then s1.(wakeupCount := s1.wakeupCount - 1)
      else s1.(cond := s1.cond.Sleep(t))
    case Recheck(t) =>
      if s.wakeupCount > 0 then s.(wakeupCount := s.wakeupCount - 1, cond := s.cond.Leave(t))
      else s.(cond := s.cond.Sleep(t))
    case Wakeup(w) =>
      if s.waitCount < 0
      then Sem(s.waitCount + 1, s.wakeupCount + 1, s.cond.Notify(w))
      else s.(waitCount := s.waitCount + 1)
    case Spurious(t) => s.(cond := s.cond.Notify(Thread(t)))
  }

  /** The step in which `wait` returns. */
  predicate Completes(s: Sem, a: Action)
  {
    match a
    case Wait(_) => s.waitCount > 0 || s.wakeupCount > 0
    case Recheck(_) => s.wakeupCount > 0
    case _ => false
  }

  lemma StepKeeps(s: Sem, a: Action)
    requires s.Valid() && Enabled(s, a)
    ensures Apply(s, a).Valid()
  {
    match a {
      case Wait(t) => if s.waitCount <= 0 && s.wakeupCount == 0 { SleepCovers(s.cond, t); }
      case Recheck(t) =>
        if s.wakeupCount > 0 { LeaveCount(s.cond, t); } else { SleepCount(s.cond, t); }
      case Wakeup(w) =>
        if s.waitCount < 0 { NotifyCount(s.cond, w); }
      case Spurious(t) => NotifyCount(s.cond, Thread(t));
    }
  }

  /** Who waits after a step: nobody new but a first pass that finds no permit, and never the
      thread whose `wait` returns. */
  lemma StepWaiters(s: Sem, a: Action)
    requires s.Valid() && Enabled(s, a)
    ensures forall t :: Apply(s, a).cond.Waiting(t) ==> s.cond.Waiting(t) || (a == Wait(t) && !Completes(s, a))
    ensures forall t :: (a == Wait(t) || a == Recheck(t)) && Completes(s, a) ==> !Apply(s, a).cond.Waiting(t)
  {
  }

  lemma NotifyCount(c: Cond, w: Choice)
    requires c.Valid() && (c.CanNotify(w) || (w.Thread? && w.t in c.asleep))
    ensures var d := c.Notify(w);
      && d.Valid() && |d.asleep| + |d.notified| == |c.asleep| + |c.notified|
      && (if w.Nobody? then d.asleep == {} else |d.notified| == |c.notified| + 1)
  {
  }

  lemma LeaveCount(c: Cond, t: Tid)
    requires c.Valid() && t in c.notified
    ensures c.Leave(t).Valid() && |c.Leave(t).notified| == |c.notified| - 1
  {
  }

  lemma SleepCount(c: Cond, t: Tid)
    requires c.Valid() && t in c.notified
    ensures c.Sleep(t).Valid()
    ensures |c.Sleep(t).asleep| == |c.asleep| + 1 && |c.Sleep(t).notified| == |c.notified| - 1
  {
  }

  /** Each step is a step of the counting semaphore: a wakeup adds a permit, a returning
      wait takes one that is there, everything else leaves the permits alone. */
  lemma RefinesCounting(s: Sem, a: Action)
    requires s.Valid() && Enabled(s, a)
    ensures Completes(s, a) ==> s.Permits() > 0
    ensures Apply(s, a).Permits() ==
      s.Permits() + (if a.Wakeup? then 1 else 0) - (if Completes(s, a) then 1 else 0)
  {
  }

  /** A `wait` returns in its first pass exactly if a permit is there, one granted to another
      waiter included, and otherwise goes to sleep; so does a notified waiter's re-check. */
  lemma ReturnsIffPermit(s: Sem, a: Action)
    requires s.Valid() && Enabled(s, a) && (a.Wait? || a.Recheck?)
    ensures Completes(s, a) <==> s.Permits() > 0
    ensures Completes(s, a) ==> !Apply(s, a).cond.Waiting(a.t)
    ensures !Completes(s, a) ==> a.t in Apply(s, a).cond.asleep
  {
    if a.Recheck? { assert |s.cond.notified| > 0; }
  }

  /** A permit beside a blocked waiter: some notified waiter returns with its next step. */
  lemma NoGrantStranded(s: Sem)
    requires s.Valid() && s.Permits() > 0 && s.Blocked() > 0
    ensures exists t :: Enabled(s, Recheck(t)) && Completes(s, Recheck(t))
  {
    assert |s.cond.notified| > 0;
    var t :| t in s.cond.notified;
    assert Enabled(s, Recheck(t));
  }

  // ------------------------------------------------------------ whole runs

  datatype Past = Past(s: Sem, waits: nat, wakeups: nat, completed: nat)

  function Next(p: Past, a: Action): Past
    requires Enabled(p.s, a)
  {
    Past(Apply(p.s, a), p.waits + (if a.Wait? then 1 else 0), p.wakeups + (if a.Wakeup? then 1 else 0),
         p.completed + (if Completes(p.s, a) then 1 else 0))
  }

  ghost predicate IsRun(ps: seq<Past>, acts: seq<Action>)
  {
    && |ps| == |acts| + 1
    && (forall i :: 0 <= i < |acts| ==> Enabled(ps[i].s, acts[i]) && ps[i + 1] == Next(ps[i], acts[i]))
  }

  /** In every run the counters mean what they should: waits that returned are
      min(waits, wakeups) less the grants not yet taken. */
  lemma {:induction false} RunCounts(ps: seq<Past>, acts: seq<Action>, i: nat)
    requires IsRun(ps, acts) && ps[0] == Past(INITIAL, 0, 0, 0) && i <= |acts|
    ensures var p := ps[i];
      && p.s.Valid()
      && p.s.waitCount == p.wakeups - p.waits
      && p.completed == Min(p.waits, p.wakeups) - p.s.wakeupCount
      && p.s.Blocked() == p.waits - p.completed
    decreases i
  {
    if i > 0 {
      RunCounts(ps, acts, i - 1);
      StepKeeps(ps[i - 1].s, acts[i - 1]);
    }
  }

  // ------------------------------------------------------------- the class

  /** semaphore.cc, one pass under the mutex at a time. */
  class Semaphore {
    var waitCount: int
    var wakeupCount: int
    var condition: Cond

    ghost function State(): Sem
      reads this
    {
      Sem(waitCount, wakeupCount, condition)
    }

    constructor ()
      ensures State() == INITIAL && State().Valid()
    {
      waitCount, wakeupCount, condition := 0, 0, EMPTY;
    }

    /** The predicate test of the condition wait: return, or sleep. */
    method Test(t: Tid) returns (done: bool)
      modifies this
      ensures done <==> old(wakeupCount) > 0
      ensures waitCount == old(waitCount)
      ensures done ==> wakeupCount == old(wakeupCount) - 1 && condition == old(condition.Leave(t))
      ensures !done ==> wakeupCount == old(wakeupCount) && condition == old(condition.Sleep(t))
    {
      done := wakeupCount > 0;
      if done {
        condition := condition.Leave(t);
        wakeupCount := wakeupCount - 1;
      } else {
        condition := condition.Sleep(t);
      }
    }

    method Wait(t: Tid) returns (done: bool)
      requires State().Valid() && Enabled(State(), Action.Wait(t))
      modifies this
      ensures State() == Apply(old(State()), Action.Wait(t)) && State().Valid()
      ensures done <==> Completes(old(State()), Action.Wait(t))
      ensures done <==> old(waitCount) > 0 || old(wakeupCount) > 0
      ensures !done ==> t in condition.asleep
    {
      StepKeeps(State(), Action.Wait(t));
      assert condition.Leave(t) == condition;
      waitCount := waitCount - 1;
      if waitCount >= 0 { return true; }
      done := Test(t);
    }

    method Recheck(t: Tid) returns (done: bool)
      requires State().Valid() && Enabled(State(), Action.Recheck(t))
      modifies this
      ensures State() == Apply(old(State()), Action.Recheck(t)) && State().Valid()
      ensures done <==> Completes(old(State()), Action.Recheck(t))
      ensures done <==> old(wakeupCount) > 0
      ensures !done ==> t in condition.asleep
    {
      StepKeeps(State(), Action.Recheck(t));
      done := Test(t);
    }

    method Wakeup() returns (w: Choice)
      requires State().Valid()
      modifies this
      ensures Enabled(old(State()), Action.Wakeup(w))
      ensures State() == Apply(old(State()), Action.Wakeup(w)) && State().Valid()
    {
      ghost var before := State();
      w := Nobody;
      waitCount := waitCount + 1;
      if waitCount <= 0 {
        wakeupCount := wakeupCount + 1;
        if condition.asleep != {} {
          var t :| t in condition.asleep;
          w := Thread(t);
        }
        condition := condition.Notify(w);
      }
      StepKeeps(before, Action.Wakeup(w));
    }
  }
}
