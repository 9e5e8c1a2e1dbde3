/** Threads and condition variables. A waiting thread is asleep until a notification (or a
    spurious wakeup) makes it runnable; a notified thread still has to take the mutex and
    test its condition again, and any other thread may get there first. */
module Conditions {

  type Tid = nat

  datatype Choice = Nobody | Thread(t: Tid)

  datatype Cond = Cond(asleep: set<Tid>, notified: set<Tid>) {
    predicate Valid() { asleep !! notified }

    predicate Waiting(t: Tid) { t in asleep || t in notified }

    /** `wait`: the mutex is given up and the thread sleeps (again). */
    function Sleep(t: Tid): Cond { Cond(asleep + {t}, notified - {t}) }

    /** The thread has the mutex and its condition holds: it waits no longer. */
    function Leave(t: Tid): Cond { Cond(asleep, notified - {t}) }

    /** `notify_one` wakes one sleeping thread, if there is one. */
    predicate CanNotify(w: Choice) {
      if asleep == {} then w == Nobody else w.Thread? && w.t in asleep
    }

    function Notify(w: Choice): Cond {
      if w.Nobody? then this else Cond(asleep - {w.t}, notified + {w.t})
    }

    /** No wakeup is owed: while somebody sleeps, `n` available units have at least as many
        notified threads on their way to them. */
    predicate Covers(n: int) { asleep != {} ==> n <= |notified| }
  }

  const EMPTY: Cond := Cond({}, {})

  /** No thread waits on both. */
  ghost predicate Apart(c: Cond, d: Cond) {
    forall t :: c.Waiting(t) ==> !d.Waiting(t)
  }

  lemma ApartSymmetric(c: Cond, d: Cond)
    requires Apart(c, d)
    ensures Apart(d, c)
  {
  }

  /** Only sleeping adds a waiter. */
  lemma ApartSteps(c: Cond, d: Cond, t: Tid, w: Choice)
    requires Apart(c, d)
    ensures !d.Waiting(t) ==> Apart(c.Sleep(t), d)
    ensures Apart(c.Leave(t), d)
    ensures c.CanNotify(w) ==> Apart(c.Notify(w), d)
    ensures t in c.asleep ==> Apart(c.Notify(Thread(t)), d)
  {
    assert forall x :: c.Sleep(t).Waiting(x) ==> c.Waiting(x) || x == t;
    assert forall x :: c.Leave(t).Waiting(x) ==> c.Waiting(x);
    assert c.CanNotify(w) ==> forall x :: c.Notify(w).Waiting(x) ==> c.Waiting(x);
    assert t in c.asleep ==> forall x :: c.Notify(Thread(t)).Waiting(x) ==> c.Waiting(x);
  }

  /** Who waits after a step. */
  lemma WaitersAfter(c: Cond, t: Tid, w: Choice)
    ensures forall x :: c.Sleep(t).Waiting(x) ==> c.Waiting(x) || x == t
    ensures forall x :: c.Leave(t).Waiting(x) ==> c.Waiting(x)
    ensures t !in c.asleep ==> !c.Leave(t).Waiting(t)
    ensures (w.Thread? ==> w.t in c.asleep) ==> forall x :: c.Notify(w).Waiting(x) ==> c.Waiting(x)
  {
  }

  lemma NotifyCovers(c: Cond, w: Choice, n: int)
    requires c.Valid() && c.Covers(n) && c.CanNotify(w)
    ensures c.Notify(w).Valid() && c.Notify(w).Covers(n + 1)
    ensures w.Thread? ==> |c.Notify(w).notified| == |c.notified| + 1
  {
  }

  lemma SpuriousCovers(c: Cond, t: Tid, n: int)
    requires c.Valid() && c.Covers(n) && t in c.asleep
    ensures c.Notify(Thread(t)).Valid() && c.Notify(Thread(t)).Covers(n)
    ensures |c.Notify(Thread(t)).notified| == |c.notified| + 1
  {
  }

  lemma LeaveCovers(c: Cond, t: Tid, n: int)
    requires c.Valid() && c.Covers(n) && t !in c.asleep
    ensures c.Leave(t).Valid() && c.Leave(t).Covers(n - 1)
    ensures |c.Leave(t).notified| == |c.notified| - (if t in c.notified then 1 else 0)
  {
    if t !in c.notified { assert c.notified - {t} == c.notified; }
  }

  lemma SleepCovers(c: Cond, t: Tid)
    requires c.Valid()
    ensures c.Sleep(t).Valid() && c.Sleep(t).Covers(0)
    ensures t !in c.notified ==> c.Sleep(t).notified == c.notified
  {
  }
}
