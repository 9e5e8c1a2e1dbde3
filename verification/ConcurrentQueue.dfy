/** The bounded blocking queue: a mutex, two condition variables and a deque. Each pass
    through a critical section, from taking the mutex to releasing it or waiting, is one
    atomic step; the interleavings of all threads are the runs below. */
module ConcurrentQueues {
  import opened Basics
  import opened Conditions

  datatype Queue<T> = Queue(items: seq<T>, maxSize: nat, notFull: Cond, notEmpty: Cond) {
    /** `max_size_` 0 means unbounded. */
    predicate Bounded() { maxSize != 0 }
    predicate Full() { Bounded() && |items| >= maxSize }

    /** A thread waits in one place at most. */
    predicate Free(t: Tid) { !notFull.Waiting(t) && !notEmpty.Waiting(t) }
    predicate MayPush(t: Tid) { t !in notFull.asleep && !notEmpty.Waiting(t) }
    predicate MayPop(t: Tid) { t !in notEmpty.asleep && !notFull.Waiting(t) }

    /** No wakeup is ever lost, on either side. */
    ghost predicate Valid() {
      && notFull.Valid() && notEmpty.Valid()
      && Apart(notFull, notEmpty)
      && (Bounded() ==> |items| <= maxSize)
      && (!Bounded() ==> notFull == EMPTY)
      && notFull.Covers(FreeSlots())
      && notEmpty.Covers(|items|)
    }

    function FreeSlots(): int { if Bounded() then maxSize - |items| else 0 }
  }

  function Empty<T>(maxSize: nat): (q: Queue<T>)
    ensures q.Valid()
  {
    Queue([], maxSize, EMPTY, EMPTY)
  }

  /** One step of some thread. `w` is whom the notification of the step wakes; a `Push` or
      `Pop` is a first try or the re-check of a notified thread. */
  datatype Action<T> =
    | Push(t: Tid, x: T, w: Choice) | TryPush(t: Tid, x: T, w: Choice)
    | Pop(t: Tid, w: Choice) | TryPop(t: Tid, w: Choice)
    | SpuriousPush(t: Tid) | SpuriousPop(t: Tid)

  predicate Enabled<T>(q: Queue<T>, a: Action<T>)
  {
    match a
    case Push(t, _, w) => q.MayPush(t) && (if q.Full() then w == Nobody else q.notEmpty.CanNotify(w))
    case TryPush(t, _, w) => q.Free(t) && (if q.Full() then w == Nobody else q.notEmpty.CanNotify(w))
    case Pop(t, w) => q.MayPop(t) && (if q.items == [] then w == Nobody else q.notFull.CanNotify(w))
    case TryPop(t, w) => q.Free(t) && (if q.items == [] then w == Nobody else q.notFull.CanNotify(w))
    case SpuriousPush(t) => t in q.notFull.asleep
    case SpuriousPop(t) => t in q.notEmpty.asleep
  }

  function Apply<T>(q: Queue<T>, a: Action<T>): Queue<T>
    requires Enabled(q, a)
  {
    match a
    case Push(t, x, w) =>
      if q.Full() then q.(notFull := q.notFull.Sleep(t))
      else q.(items := q.items + [x], notFull := q.notFull.Leave(t), notEmpty := q.notEmpty.Notify(w))
    case TryPush(t, x, w) =>
      if q.Full() then q else q.(items := q.items + [x], notEmpty := q.notEmpty.Notify(w))
    case Pop(t, w) =>
      if q.items == [] then q.(notEmpty := q.notEmpty.Sleep(t))
      else q.(items := q.items[1..], notEmpty := q.notEmpty.Leave(t), notFull := q.notFull.Notify(w))
    case TryPop(t, w) =>
      if q.items == [] then q else q.(items := q.items[1..], notFull := q.notFull.Notify(w))
    case SpuriousPush(t) => q.(notFull := q.notFull.Notify(Thread(t)))
    case SpuriousPop(t) => q.(notEmpty := q.notEmpty.Notify(Thread(t)))
  }

  /** The item a step adds, and the item it takes out. */
  function Pushed<T>(q: Queue<T>, a: Action<T>): seq<T>
  {
    if (a.Push? || a.TryPush?) && !q.Full() then [a.x] else []
  }

  function Popped<T>(q: Queue<T>, a: Action<T>): seq<T>
  {
    if (a.Pop? || a.TryPop?) && q.items != [] then [q.items[0]] else []
  }

  lemma PushSleeps<T>(q: Queue<T>, t: Tid)
    requires q.Valid() && q.Full() && q.MayPush(t)
    ensures q.(notFull := q.notFull.Sleep(t)).Valid()
  {
    SleepCovers(q.notFull, t);
    ApartSteps(q.notFull, q.notEmpty, t, Nobody);
  }

  lemma PushEnters<T>(q: Queue<T>, t: Tid, x: T, w: Choice)
    requires q.Valid() && !q.Full() && q.MayPush(t) && q.notEmpty.CanNotify(w)
    ensures Apply(q, Push(t, x, w)).Valid()
  {
    NotifyCovers(q.notEmpty, w, |q.items|);
    LeaveCovers(q.notFull, t, q.FreeSlots());
    ApartSymmetric(q.notFull, q.notEmpty);
    ApartSteps(q.notEmpty, q.notFull, t, w);
    ApartSymmetric(q.notEmpty.Notify(w), q.notFull);
    ApartSteps(q.notFull, q.notEmpty.Notify(w), t, Nobody);
  }

  lemma PopSleeps<T>(q: Queue<T>, t: Tid)
    requires q.Valid() && q.items == [] && q.MayPop(t)
    ensures q.(notEmpty := q.notEmpty.Sleep(t)).Valid()
  {
    SleepCovers(q.notEmpty, t);
    ApartSymmetric(q.notFull, q.notEmpty);
    ApartSteps(q.notEmpty, q.notFull, t, Nobody);
    ApartSymmetric(q.notEmpty.Sleep(t), q.notFull);
  }

  lemma PopLeaves<T>(q: Queue<T>, t: Tid, w: Choice)
    requires q.Valid() && q.items != [] && q.MayPop(t) && q.notFull.CanNotify(w)
    ensures Apply(q, Pop(t, w)).Valid()
  {
    NotifyCovers(q.notFull, w, q.FreeSlots());
    LeaveCovers(q.notEmpty, t, |q.items|);
    ApartSteps(q.notFull, q.notEmpty, t, w);
    ApartSymmetric(q.notFull.Notify(w), q.notEmpty);
    ApartSteps(q.notEmpty, q.notFull.Notify(w), t, Nobody);
    ApartSymmetric(q.notEmpty.Leave(t), q.notFull.Notify(w));
  }

  /** A thread that does not wait on a condition leaves it as it is. */
  lemma LeaveIdle(c: Cond, t: Tid)
    requires !c.Waiting(t)
    ensures c.Leave(t) == c
  {
  }

  lemma SpuriousKeeps<T>(q: Queue<T>, a: Action<T>)
    requires q.Valid() && Enabled(q, a) && (a.SpuriousPush? || a.SpuriousPop?)
    ensures Apply(q, a).Valid()
  {
    if a.SpuriousPush? {
      SpuriousCovers(q.notFull, a.t, q.FreeSlots());
      ApartSteps(q.notFull, q.notEmpty, a.t, Nobody);
    } else {
      SpuriousCovers(q.notEmpty, a.t, |q.items|);
      ApartSymmetric(q.notFull, q.notEmpty);
      ApartSteps(q.notEmpty, q.notFull, a.t, Nobody);
      ApartSymmetric(q.notEmpty.Notify(Thread(a.t)), q.notFull);
    }
  }

  /** Every step of every thread keeps the invariant: no wakeup is lost. */
  lemma StepKeeps<T>(q: Queue<T>, a: Action<T>)
    requires q.Valid() && Enabled(q, a)
    ensures Apply(q, a).Valid() && Apply(q, a).maxSize == q.maxSize
  {
    match a {
      case SpuriousPush(_) => SpuriousKeeps(q, a);
      case SpuriousPop(_) => SpuriousKeeps(q, a);
      case Push(t, x, w) =>
        if q.Full() { PushSleeps(q, t); } else { PushEnters(q, t, x, w); }
      case TryPush(t, x, w) =>
        if !q.Full() { PushEnters(q, t, x, w); LeaveIdle(q.notFull, t); }
      case Pop(t, w) =>
        if q.items == [] { PopSleeps(q, t); } else { PopLeaves(q, t, w); }
      case TryPop(t, w) =>
        if q.items != [] { PopLeaves(q, t, w); LeaveIdle(q.notEmpty, t); }
    }
  }

  lemma StepIsFifo<T>(q: Queue<T>, a: Action<T>)
    requires Enabled(q, a)
    ensures Popped(q, a) + Apply(q, a).items == q.items + Pushed(q, a)
  {
  }

  /** A consumer that finds something takes the front item, and nothing else leaves. */
  lemma TakesFront<T>(q: Queue<T>, a: Action<T>)
    requires q.Valid() && Enabled(q, a) && (a.Pop? || a.TryPop?)
    ensures q.items != [] ==>
      Apply(q, a).items == q.items[1..] && Popped(q, a) == [q.items[0]] && !Apply(q, a).notEmpty.Waiting(a.t)
    ensures q.items == [] ==> Apply(q, a).items == [] && Popped(q, a) == []
    ensures q.items == [] && a.Pop? ==> a.t in Apply(q, a).notEmpty.asleep
    ensures q.items == [] && a.TryPop? ==> Apply(q, a) == q
  {
  }

  /** A producer that finds room adds its item at the back; without, `push` sleeps and
      `pushIfNotFull` does nothing. A bound of 0 is no bound. */
  lemma AddsBack<T>(q: Queue<T>, a: Action<T>)
    requires q.Valid() && Enabled(q, a) && (a.Push? || a.TryPush?)
    ensures q.maxSize == 0 || |q.items| < q.maxSize ==>
      Apply(q, a).items == q.items + [a.x] && Pushed(q, a) == [a.x] && !Apply(q, a).notFull.Waiting(a.t)
    ensures q.maxSize != 0 && |q.items| >= q.maxSize ==> Apply(q, a).items == q.items && Pushed(q, a) == []
    ensures q.maxSize != 0 && |q.items| >= q.maxSize && a.Push? ==> a.t in Apply(q, a).notFull.asleep
    ensures q.maxSize != 0 && |q.items| >= q.maxSize && a.TryPush? ==> Apply(q, a) == q
  {
  }

  /** Nothing else touches the items. */
  lemma WakesOnly<T>(q: Queue<T>, a: Action<T>)
    requires Enabled(q, a) && (a.SpuriousPush? || a.SpuriousPop?)
    ensures Apply(q, a).items == q.items && Pushed(q, a) == [] && Popped(q, a) == []
  {
  }

  // ------------------------------------------------------------ whole runs

  datatype Past<T> = Past(q: Queue<T>, pushed: seq<T>, popped: seq<T>)

  function Next<T>(p: Past<T>, a: Action<T>): Past<T>
    requires Enabled(p.q, a)
  {
    Past(Apply(p.q, a), p.pushed + Pushed(p.q, a), p.popped + Popped(p.q, a))
  }

  ghost predicate IsRun<T>(ps: seq<Past<T>>, acts: seq<Action<T>>)
  {
    && |ps| == |acts| + 1
    && (forall i :: 0 <= i < |acts| ==> Enabled(ps[i].q, acts[i]) && ps[i + 1] == Next(ps[i], acts[i]))
  }

  /** In every interleaving of any number of threads: the bound holds, what was popped and
      what is queued is what was pushed, in that order, and no wakeup is owed. */
  lemma {:induction false} RunIsFifo<T>(ps: seq<Past<T>>, acts: seq<Action<T>>, maxSize: nat, i: nat)
    requires IsRun(ps, acts) && ps[0] == Past(Empty(maxSize), [], []) && i <= |acts|
    ensures ps[i].q.Valid() && ps[i].q.maxSize == maxSize
    ensures ps[i].popped + ps[i].q.items == ps[i].pushed
    decreases i
  {
    if i > 0 {
      RunIsFifo(ps, acts, maxSize, i - 1);
      var p, a := ps[i - 1], acts[i - 1];
      StepKeeps(p.q, a);
      StepIsFifo(p.q, a);
      Regroup(p.popped, Popped(p.q, a), Apply(p.q, a).items);
      Regroup(p.popped, p.q.items, Pushed(p.q, a));
    }
  }

  /** Never are producers and consumers asleep with nobody on the way to wake them. */
  lemma NeverAllAsleep<T>(q: Queue<T>)
    requires q.Valid()
    ensures !(q.notFull.asleep != {} && q.notFull.notified == {}
              && q.notEmpty.asleep != {} && q.notEmpty.notified == {})
  {
  }

  /** A sleeping consumer beside a non-empty queue means a notified one whose next step
      takes an item; a sleeping producer beside a free slot, one that fills it. */
  lemma SleepersAreCovered<T>(q: Queue<T>, x: T)
    requires q.Valid()
    ensures q.notEmpty.asleep != {} && q.items != [] ==>
      exists t, w :: t in q.notEmpty.notified && Enabled(q, Pop(t, w)) && Popped(q, Pop(t, w)) != []
    ensures q.notFull.asleep != {} && !q.Full() ==>
      exists t, w :: t in q.notFull.notified && Enabled(q, Push(t, x, w)) && Pushed(q, Push(t, x, w)) != []
  {
    if q.notEmpty.asleep != {} && q.items != [] {
      var t := Member(q.notEmpty.notified);
      var w := SomeChoice(q.notFull);
      assert Enabled(q, Pop(t, w)) && Popped(q, Pop(t, w)) != [];
    }
    if q.notFull.asleep != {} && !q.Full() {
      var t := Member(q.notFull.notified);
      var w := SomeChoice(q.notEmpty);
      assert Enabled(q, Push(t, x, w)) && Pushed(q, Push(t, x, w)) != [];
    }
  }

  lemma Member(s: set<Tid>) returns (t: Tid)
    requires |s| > 0
    ensures t in s
  {
    t :| t in s;
  }

  lemma SomeChoice(c: Cond) returns (w: Choice)
    ensures c.CanNotify(w)
  {
    if c.asleep == {} { w := Nobody; } else { var t :| t in c.asleep; w := Thread(t); }
  }

  // ------------------------------------------------------------- the class

  /** The critical sections of concurrent_queue.h, run by thread `t` with the mutex held. */
  class ConcurrentQueue<T> {
    var items: seq<T>
    const maxSize: nat
    const isBounded: bool
    var notFull: Cond
    var notEmpty: Cond

    ghost function State(): Queue<T>
      reads this
    {
      Queue(items, maxSize, notFull, notEmpty)
    }

    ghost predicate Valid()
      reads this
    {
      isBounded == (maxSize != 0) && State().Valid()
    }

    constructor (max: nat)
      ensures Valid() && State() == Empty(max) && items == [] && maxSize == max
    {
      items, maxSize, isBounded, notFull, notEmpty := [], max, max != 0, EMPTY, EMPTY;
    }

    predicate FullNoLock()
      reads this
    {
      if !isBounded then false else |items| >= maxSize
    }

    method NotifyOne(c: Cond) returns (w: Choice)
      ensures c.CanNotify(w)
    {
      if c.asleep == {} { return Nobody; }
      var t :| t in c.asleep;
      return Thread(t);
    }

    /** `push`, up to its wait or its return. */
    method Push(t: Tid, x: T) returns (done: bool, w: Choice)
      requires Valid() && State().MayPush(t)
      modifies this
      ensures Valid() && Enabled(old(State()), Action.Push(t, x, w))
      ensures State() == Apply(old(State()), Action.Push(t, x, w))
      ensures done <==> maxSize == 0 || |old(items)| < maxSize
      ensures items == if done then old(items) + [x] else old(items)
      ensures !done ==> t in notFull.asleep
    {
      ghost var before := State();
      w := Nobody;
      done := !FullNoLock();
      if !done {
        notFull := notFull.Sleep(t);
      } else {
        items := items + [x];
        notFull := notFull.Leave(t);
        w := NotifyOne(notEmpty);
        notEmpty := notEmpty.Notify(w);
      }
      StepKeeps(before, Action.Push(t, x, w));
    }

    method PushIfNotFull(t: Tid, x: T) returns (done: bool, w: Choice)
      requires Valid() && State().Free(t)
      modifies this
      ensures Valid() && Enabled(old(State()), TryPush(t, x, w))
      ensures State() == Apply(old(State()), TryPush(t, x, w))
      ensures done <==> maxSize == 0 || |old(items)| < maxSize
      ensures items == if done then old(items) + [x] else old(items)
    {
      ghost var before := State();
      w := Nobody;
      if FullNoLock() { return false, w; }
      items := items + [x];
      w := NotifyOne(notEmpty);
      notEmpty := notEmpty.Notify(w);
      StepKeeps(before, TryPush(t, x, w));
      return true, w;
    }

    /** `pop`, up to its wait or its return. */
    method Pop(t: Tid) returns (front: seq<T>, w: Choice)
      requires Valid() && State().MayPop(t)
      modifies this
      ensures Valid() && Enabled(old(State()), Action.Pop(t, w))
      ensures State() == Apply(old(State()), Action.Pop(t, w))
      ensures front == if old(items) == [] then [] else [old(items)[0]]
      ensures front + items == old(items) && (front == [] ==> t in notEmpty.asleep)
    {
      ghost var before := State();
      w, front := Nobody, [];
      if items == [] {
        notEmpty := notEmpty.Sleep(t);
      } else {
        front, items := [items[0]], items[1..];
        notEmpty := notEmpty.Leave(t);
        w := NotifyOne(notFull);
        notFull := notFull.Notify(w);
      }
      StepKeeps(before, Action.Pop(t, w));
    }

    method PopIfNotEmpty(t: Tid) returns (front: seq<T>, w: Choice)
      requires Valid() && State().Free(t)
      modifies this
      ensures Valid() && Enabled(old(State()), TryPop(t, w))
      ensures State() == Apply(old(State()), TryPop(t, w))
      ensures front == if old(items) == [] then [] else [old(items)[0]]
      ensures front + items == old(items)
    {
      ghost var before := State();
      w := Nobody;
      if items == [] { return [], w; }
      front, items := [items[0]], items[1..];
      w := NotifyOne(notFull);
      notFull := notFull.Notify(w);
      StepKeeps(before, TryPop(t, w));
    }
  }
}
