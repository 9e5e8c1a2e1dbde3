/** Progress of the asynchronous sink: a `log` call or a destruction under way is never
    stuck, and a destruction ends after a bounded number of steps. */
module AsyncSinkShutdown {
  import opened Conditions
  import opened ObjectPools
  import S = Semaphores
  import Q = ConcurrentQueues
  import J = ThreadJoin
  import opened AsyncSink
  import opened AsyncSinkInvariants
  import opened AsyncSinkProofs

  /** Work under way: steps of these kinds, not a new call and not a stray wakeup. */
  predicate Working(a: Action) { !Spurious(a) && !a.GetObject? && !a.BeginDestroy? }

  /** The thread whose step it is. */
  function Actor(a: Action): Tid
  {
    match a
    case GetObject(t, _) => t
    case FillBuffer(t) => t
    case PushRecord(t, _) => t
    case SpuriousPush(t) => t
    case Join(b) =>
      (match b
       case Close(t) => t
       case Lock(t) => t
       case Test(t) => t
       case SemWait(t) => t
       case SemRecheck(t) => t
       case SemSpurious(t) => t
       case Unlock(t) => t
       case _ => LOGGER)
    case PopRecord(_) => LOGGER
    case LogRecord => LOGGER
    case Drain => LOGGER
    case ReturnObject => LOGGER
    case SpuriousPop => LOGGER
    case _ => DESTROYER
  }

  /** Thread `u` can take a step of work under way. */
  ghost predicate CanWork(s: State, u: Tid) { exists a :: Working(a) && Enabled(s, a) && Actor(a) == u }

  // ------------------------------------------------------------ never stuck

  lemma LoggerMoves(s: State)
    requires Waiters(s) && HeapOk(s.owner, s.heap) && LoggerOwns(s.owner, s.logger)
    requires !s.logger.Finished? && LOGGER !in s.queue.notEmpty.asleep
    ensures CanWork(s, LOGGER)
  {
    match s.logger {
      case Popping =>
        var w := Q.SomeChoice(s.queue.notFull);
        if s.queue.items == [] { w := Nobody; }
        assert Enabled(s, PopRecord(w));
      case Logging(b) => assert b in LoggerHolds(s.logger) && Enabled(s, LogRecord);
      case Draining(b) => assert b in LoggerHolds(s.logger) && Enabled(s, Drain);
      case Returning(_) => assert Enabled(s, ReturnObject);
    }
  }

  /** With something queued, the log thread is awake or about to be. */
  lemma LoggerAwake(s: State)
    requires Waiters(s) && s.queue.items != []
    ensures LOGGER !in s.queue.notEmpty.asleep
  {
    var c := s.queue.notEmpty;
    if LOGGER in c.asleep {
      var t := Q.Member(c.notified);
      assert c.Waiting(t);
      assert false;
    }
  }

  predicate Pushes(s: State, t: Tid)
  {
    (t in s.producers && s.producers[t].Pushing?) || (t == DESTROYER && s.destroyer.PushingPoison?)
  }

  lemma PusherMoves(s: State, t: Tid)
    requires Waiters(s) && Pushes(s, t) && t !in s.queue.notFull.asleep
    ensures CanWork(s, t)
  {
    var w := Q.SomeChoice(s.queue.notEmpty);
    if s.queue.Full() { w := Nobody; }
    assert t != LOGGER && !s.queue.notEmpty.Waiting(t);
    if t in s.producers && s.producers[t].Pushing? {
      assert Enabled(s, PushRecord(t, w));
    } else {
      assert Enabled(s, PushPoison(w));
    }
  }

  /** Whose next step a push by `t` needs: its own while it is awake; asleep on a full queue,
      the log thread's, the only one that makes room; asleep beside a free slot, that of a
      notified pusher, which takes the slot and passes on the turn. */
  predicate Unblocks(s: State, t: Tid, u: Tid)
  {
    if t !in s.queue.notFull.asleep then u == t
    else if s.queue.Full() then u == LOGGER
    else u in s.queue.notFull.notified && Pushes(s, u)
  }

  /** A push under way can always go on: the thread it needs has a step to take. */
  lemma PushNeverStuck(s: State, t: Tid)
    requires Inv(s) && Pushes(s, t)
    ensures exists u :: Unblocks(s, t, u) && CanWork(s, u)
  {
    var c := s.queue.notFull;
    if t !in c.asleep {
      PusherMoves(s, t);
      assert Unblocks(s, t, t);
    } else if s.queue.Full() {
      LoggerAwake(s);
      LoggerMoves(s);
      assert Unblocks(s, t, LOGGER);
    } else {
      assert c.Waiting(t) && s.queue.Bounded();
      var u := Q.Member(c.notified);
      assert c.Waiting(u);
      PusherMoves(s, u);
      assert Unblocks(s, t, u);
    }
  }

  /** The destructor's `close` waits for nobody but the log thread. */
  lemma JoinNeverStuck(s: State)
    requires Inv(s) && s.destroyer.Joining?
    ensures CanWork(s, DESTROYER) || CanWork(s, LOGGER)
  {
    if J.At(s.join, DESTROYER, J.Returned) {
      assert Enabled(s, DeleteSink);
    } else if !s.logger.Finished? {
      LoggerAwake(s);
      LoggerMoves(s);
    } else if DESTROYER !in s.join.closers {
      assert Enabled(s, Join(J.Close(DESTROYER)));
    } else {
      J.NeverStuck(s.join, DESTROYER);
      var a :| J.Quiet(a) && !a.SemSpurious? && !a.Close? && J.Enabled(s.join, a);
      assert Enabled(s, Join(a)) && Working(Join(a));
      assert Actor(Join(a)) in {DESTROYER, LOGGER};
    }
  }

  /** Whose next step the call of `t` needs. */
  predicate Helps(s: State, t: Tid, u: Tid)
  {
    if Pushes(s, t) then Unblocks(s, t, u)
    else u == t || (t == DESTROYER && s.destroyer.Joining? && u == LOGGER)
  }

  /** The destructor, or a `log` call of `t`, is under way. */
  predicate UnderWay(s: State, t: Tid)
  {
    Producing(s, t) || (t == DESTROYER && !s.destroyer.NotBegun? && !s.destroyer.Gone?)
  }

  /** No call is ever stuck: for every `log` call and for the destructor, in every reachable
      state, a thread that call needs can take a step. */
  lemma NeverStuck(ss: seq<State>, acts: seq<Action>, queueSize: nat, producers: set<Tid>, i: nat, t: Tid)
    requires SinkRun(ss, acts, queueSize, producers) && i <= |acts| && UnderWay(ss[i], t)
    ensures exists u :: Helps(ss[i], t, u) && CanWork(ss[i], u)
  {
    RunInv(ss, acts, queueSize, producers, i);
    CallNeverStuck(ss[i], t);
  }

  lemma CallNeverStuck(s: State, t: Tid)
    requires Inv(s) && UnderWay(s, t)
    ensures exists u :: Helps(s, t, u) && CanWork(s, u)
  {
    if Pushes(s, t) {
      PushNeverStuck(s, t);
      var u :| Unblocks(s, t, u) && CanWork(s, u);
      assert Helps(s, t, u);
    } else if Producing(s, t) {
      FillEnabled(s, t);
      assert Helps(s, t, t);
    } else if s.destroyer.Joining? {
      JoinNeverStuck(s);
      assert Helps(s, t, DESTROYER) && Helps(s, t, LOGGER);
    } else {
      TeardownMoves(s);
      assert Helps(s, t, DESTROYER);
    }
  }

  lemma TeardownMoves(s: State)
    requires s.destroyer.FreeingPool? || s.destroyer.FreeingQueue?
    ensures CanWork(s, DESTROYER)
  {
    if s.destroyer.FreeingPool? { assert Enabled(s, FreePool); } else { assert Enabled(s, FreeQueue); }
  }

  lemma FillEnabled(s: State, t: Tid)
    requires Inv(s) && t in s.producers && s.producers[t].Holding?
    ensures CanWork(s, t)
  {
    var b := s.producers[t].b;
    assert Text(s.heap, b) == [] && s.heap[b].ReadableBytes() == |s.heap[b].Readable()|;
    assert Enabled(s, FillBuffer(t));
  }

  // ------------------------------------------------------ bounded shutdown

  function LoggerRank(s: State): nat
  {
    match s.logger
    case Finished => 0
    case Popping => if LOGGER in s.queue.notEmpty.asleep then 1 else 2
    case Returning(_) => 3
    case Draining(_) => 4
    case Logging(_) => 5
  }

  function CloserRank(j: J.State): nat
  {
    if DESTROYER !in j.closers then 10 else
    match j.closers[DESTROYER]
    case Entering => 9
    case Testing => 8
    case Cleared => 7
    case Blocked => if DESTROYER in j.sem.cond.asleep then 5 else 6
    case Leaving => 4
    case Returned => 3
  }

  function DestroyerRank(s: State): nat
  {
    match s.destroyer
    case NotBegun => 26
    case PushingPoison => if DESTROYER in s.queue.notFull.asleep then 24 else 25
    case Joining => CloserRank(s.join)
    case FreeingPool => 2
    case FreeingQueue => 1
    case Gone => 0
  }

  function RunnerRank(j: J.State): nat
  {
    if j.runners == [] then 0 else
    match j.runners[0]
    case Callbacks(n) => 4 + 2 * n
    case Clearing => 2
    case Ended => 0
  }

  /** What is left to do once the destructor has begun. */
  function Measure(s: State): nat
  {
    10 * |s.queue.items| + LoggerRank(s) + DestroyerRank(s) + RunnerRank(s.join)
  }

  /** A stray wakeup costs one step, everything else gains at least one. */
  predicate Advances(s: State, s': State, stray: bool)
  {
    if stray then Measure(s') <= Measure(s) + 1 else Measure(s') < Measure(s)
  }

  lemma QueueAdvances(s: State, a: Action)
    requires JoinLink(s) && Enabled(s, a)
    requires a.PopRecord? || a.PushPoison?
    ensures Advances(s, Apply(s, a), false)
  {
    if a.PopRecord? { PopAdvances(s, a.w); } else { PoisonAdvances(s, a.w); }
  }

  lemma PopAdvances(s: State, w: Choice)
    requires Enabled(s, PopRecord(w))
    ensures Advances(s, Apply(s, PopRecord(w)), false)
  {
  }

  lemma PoisonAdvances(s: State, w: Choice)
    requires DESTROYER !in s.join.closers && Enabled(s, PushPoison(w))
    ensures Advances(s, Apply(s, PushPoison(w)), false)
  {
    var s' := Apply(s, PushPoison(w));
    if s.queue.Full() {
      assert LoggerRank(s') == LoggerRank(s) && DestroyerRank(s') < DestroyerRank(s);
    } else {
      assert LoggerRank(s') <= LoggerRank(s) + 1 && DestroyerRank(s') + 15 == DestroyerRank(s);
    }
  }

  lemma SpuriousAdvances(s: State, a: Action)
    requires Enabled(s, a) && (a.SpuriousPop? || a.SpuriousPush?)
    ensures Advances(s, Apply(s, a), true)
  {
  }

  lemma LocalAdvances(s: State, a: Action)
    requires Enabled(s, a)
    requires a.LogRecord? || a.Drain? || a.ReturnObject? || a.DeleteSink? || a.FreePool? || a.FreeQueue?
    ensures Advances(s, Apply(s, a), false)
  {
  }

  /** The destructor's `close` and the end of the log thread, on their own. */
  lemma JoinRanks(j: J.State, a: J.Action)
    requires J.Inv(j) && |j.runners| == 1 && J.Enabled(j, a) && J.Quiet(a)
    requires (forall t :: t in j.closers ==> t == DESTROYER)
    requires a.Close? ==> a.t == DESTROYER && DESTROYER !in j.closers
    ensures var before, after := CloserRank(j) + RunnerRank(j), CloserRank(J.Apply(j, a)) + RunnerRank(J.Apply(j, a));
      if a.SemSpurious? then after <= before + 1 else after < before
  {
    match a {
      case Signal(_, w) =>
        if w.Thread? && j.sem.waitCount < 0 { JoinSleeper(j, w.t); }
      case SemRecheck(t) => assert J.Knows(j, t, J.Blocked);
      case SemSpurious(t) => assert J.Knows(j, t, J.Blocked);
      case _ =>
    }
  }

  lemma JoinAdvances(s: State, a: J.Action)
    requires JoinLink(s) && Phase(s) && !s.destroyer.NotBegun? && Enabled(s, Join(a))
    ensures Advances(s, Apply(s, Join(a)), a.SemSpurious?)
  {
    if s.destroyer.Joining? {
      JoinRanks(s.join, a);
    } else if s.destroyer.PushingPoison? {
      assert false;
    } else {
      JoinRanks(s.join, a);
      assert J.Knows(s.join, DESTROYER, J.Returned);
      assert s.join.mutex == J.Free;
    }
  }

  /** Whoever sleeps on the semaphore is the closer that holds the mutex. */
  lemma JoinSleeper(j: J.State, t: Tid)
    requires J.Inv(j) && t in j.sem.cond.asleep
    ensures J.At(j, t, J.Blocked)
  {
    if J.Pending(j) { assert J.Knows(j, j.mutex.t, j.closers[j.mutex.t]); }
  }

  lemma StepAdvances(s: State, a: Action)
    requires Inv(s) && !s.destroyer.NotBegun? && Enabled(s, a)
    ensures Advances(s, Apply(s, a), Spurious(a))
  {
    match a {
      case PopRecord(_) => QueueAdvances(s, a);
      case PushPoison(_) => QueueAdvances(s, a);
      case SpuriousPop => SpuriousAdvances(s, a);
      case SpuriousPush(_) => SpuriousAdvances(s, a);
      case Join(b) => JoinAdvances(s, b);
      case GetObject(_, _) => assert false;
      case FillBuffer(_) => assert false;
      case PushRecord(_, _) => assert false;
      case _ => LocalAdvances(s, a);
    }
  }

  /** The stray wakeups among the actions from `k` up to `i`. */
  function Strays(acts: seq<Action>, k: nat, i: nat): nat
    requires i <= |acts|
  {
    if i <= k then 0 else Strays(acts, k, i - 1) + (if Spurious(acts[i - 1]) then 1 else 0)
  }

  /** One step of a run after the destructor has begun. */
  lemma AdvancesAt(ss: seq<State>, acts: seq<Action>, queueSize: nat, producers: set<Tid>, i: nat)
    requires SinkRun(ss, acts, queueSize, producers) && i < |acts| && !ss[i].destroyer.NotBegun?
    ensures !ss[i + 1].destroyer.NotBegun?
    ensures Advances(ss[i], ss[i + 1], Spurious(acts[i]))
  {
    RunInv(ss, acts, queueSize, producers, i);
    StepAdvances(ss[i], acts[i]);
  }

  lemma MeasureAtBegin(s: State)
    requires JoinLink(s) && s.destroyer.PushingPoison?
    ensures Measure(s) <= 10 * |s.queue.items| + 36
  {
  }

  /** Steps that gain one, less the stray ones that lose one, are bounded by what is lost. */
  lemma {:induction false} Telescope(measure: seq<nat>, acts: seq<Action>, k: nat, i: nat)
    requires k <= i <= |acts| < |measure|
    requires forall j :: k <= j < i ==> if Spurious(acts[j]) then measure[j + 1] <= measure[j] + 1 else measure[j + 1] < measure[j]
    ensures (i - k) + measure[i] <= measure[k] + 2 * Strays(acts, k, i)
    decreases i
  {
    if i > k { Telescope(measure, acts, k, i - 1); }
  }

  lemma {:induction false} StaysBegun(ss: seq<State>, acts: seq<Action>, queueSize: nat, producers: set<Tid>, k: nat, i: nat)
    requires SinkRun(ss, acts, queueSize, producers) && k <= i <= |acts| && !ss[k].destroyer.NotBegun?
    ensures !ss[i].destroyer.NotBegun?
    decreases i
  {
    if i > k {
      StaysBegun(ss, acts, queueSize, producers, k, i - 1);
      AdvancesAt(ss, acts, queueSize, producers, i - 1);
    }
  }

  /** From the moment the destructor begins, with `q` items queued, any run takes at most
      10 q + 36 steps plus twice the stray wakeups; being never stuck, it ends. */
  lemma ShutdownIsBounded(ss: seq<State>, acts: seq<Action>, queueSize: nat, producers: set<Tid>, k: nat, i: nat)
    requires SinkRun(ss, acts, queueSize, producers) && k <= i <= |acts| && ss[k].destroyer.PushingPoison?
    ensures i - k <= 10 * |ss[k].queue.items| + 36 + 2 * Strays(acts, k, i)
  {
    var measure := seq(|ss|, j requires 0 <= j < |ss| => Measure(ss[j]));
    forall j | k <= j < i
      ensures if Spurious(acts[j]) then measure[j + 1] <= measure[j] + 1 else measure[j + 1] < measure[j]
    {
      StaysBegun(ss, acts, queueSize, producers, k, j);
      AdvancesAt(ss, acts, queueSize, producers, j);
    }
    Telescope(measure, acts, k, i);
    RunInv(ss, acts, queueSize, producers, k);
    MeasureAtBegin(ss[k]);
  }
}
