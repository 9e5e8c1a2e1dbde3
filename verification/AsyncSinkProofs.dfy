/** The guarantees of the asynchronous sink, in every interleaving: delivery, ownership of
    buffers, a bound on their number, and deletion in the right order, once each. */
module AsyncSinkProofs {
  import opened ByteStrings
  import opened Conditions
  import opened ObjectPools
  import Q = ConcurrentQueues
  import J = ThreadJoin
  import opened AsyncSink
  import opened AsyncSinkInvariants

  // ------------------------------------------------- who waits, and for what

  ghost predicate Waiters(s: State)
  {
    && s.queue.Valid()
    && LOGGER !in s.producers && DESTROYER !in s.producers
    && (forall t :: s.queue.notFull.Waiting(t) ==>
          (t in s.producers && s.producers[t].Pushing?) || (t == DESTROYER && s.destroyer.PushingPoison?))
    && (forall t :: s.queue.notEmpty.Waiting(t) ==> t == LOGGER && s.logger.Popping?)
  }

  predicate UsesQueue(a: Action)
  {
    a.PushRecord? || a.PopRecord? || a.PushPoison? || a.SpuriousPush? || a.SpuriousPop?
  }

  lemma PushRecordWaiters(s: State, t: Tid, w: Choice)
    requires Waiters(s) && Enabled(s, PushRecord(t, w))
    ensures Waiters(Apply(s, PushRecord(t, w)))
  {
    var a := Q.Push(t, Filled(s.producers[t].b), w);
    Q.StepKeeps(s.queue, a);
    WaitersAfter(s.queue.notFull, t, Nobody);
    WaitersAfter(s.queue.notEmpty, t, w);
  }

  lemma PopRecordWaiters(s: State, w: Choice)
    requires Waiters(s) && Enabled(s, PopRecord(w))
    ensures Waiters(Apply(s, PopRecord(w)))
  {
    hide Q.Apply, Q.Enabled, Q.Queue.Valid;
    var q, s' := Q.Apply(s.queue, Q.Pop(LOGGER, w)), Apply(s, PopRecord(w));
    Q.StepKeeps(s.queue, Q.Pop(LOGGER, w));
    PopWaiters(s.queue, w);
    assert s'.queue == q && s'.producers == s.producers && s'.destroyer == s.destroyer;
    assert s.queue.items == [] ==> s'.logger == s.logger;
  }

  /** A `pop` leaves only the log thread waiting for items, and only for want of any. */
  lemma PopWaiters(q: Q.Queue<Item>, w: Choice)
    requires Q.Enabled(q, Q.Pop(LOGGER, w))
    requires forall t :: q.notEmpty.Waiting(t) ==> t == LOGGER
    ensures var q' := Q.Apply(q, Q.Pop(LOGGER, w));
      && (forall t :: q'.notFull.Waiting(t) ==> q.notFull.Waiting(t))
      && (forall t :: q'.notEmpty.Waiting(t) ==> t == LOGGER && q.items == [])
  {
    WaitersAfter(q.notFull, LOGGER, w);
    WaitersAfter(q.notEmpty, LOGGER, Nobody);
  }

  lemma PushPoisonWaiters(s: State, w: Choice)
    requires Waiters(s) && Enabled(s, PushPoison(w))
    ensures Waiters(Apply(s, PushPoison(w)))
  {
    Q.StepKeeps(s.queue, Q.Push(DESTROYER, Poison, w));
    WaitersAfter(s.queue.notFull, DESTROYER, Nobody);
    WaitersAfter(s.queue.notEmpty, DESTROYER, w);
  }

  lemma SpuriousWaiters(s: State, a: Action)
    requires Waiters(s) && Enabled(s, a) && (a.SpuriousPush? || a.SpuriousPop?)
    ensures Waiters(Apply(s, a))
  {
    var b := if a.SpuriousPush? then Q.SpuriousPush(a.t) else Q.SpuriousPop(LOGGER);
    Q.StepKeeps(s.queue, b);
    WaitersAfter(s.queue.notFull, LOGGER, Thread(if a.SpuriousPush? then a.t else LOGGER));
    WaitersAfter(s.queue.notEmpty, LOGGER, Thread(LOGGER));
  }

  /** A step that leaves the queue alone makes nobody a waiter. */
  lemma OtherWaitersKept(s: State, a: Action)
    requires Waiters(s) && Enabled(s, a) && !UsesQueue(a)
    ensures Waiters(Apply(s, a))
  {
    var s' := Apply(s, a);
    assert s'.queue == s.queue && s'.producers.Keys == s.producers.Keys by { ProducersFixed(s, a); }
    assert forall t :: t in s.producers && s.producers[t].Pushing? ==> s'.producers[t].Pushing?;
    assert s.logger.Popping? ==> s'.logger.Popping?;
    assert s.destroyer.PushingPoison? ==> s'.destroyer.PushingPoison?;
  }

  lemma WaitersKept(s: State, a: Action)
    requires Waiters(s) && Enabled(s, a)
    ensures Waiters(Apply(s, a))
  {
    match a {
      case PushRecord(t, w) => PushRecordWaiters(s, t, w);
      case PopRecord(w) => PopRecordWaiters(s, w);
      case PushPoison(w) => PushPoisonWaiters(s, w);
      case SpuriousPush(_) => SpuriousWaiters(s, a);
      case SpuriousPop => SpuriousWaiters(s, a);
      case _ => OtherWaitersKept(s, a);
    }
  }

  /** Threads and bounds are fixed. */
  lemma ShapeKept(s: State, a: Action)
    requires Enabled(s, a)
    ensures Apply(s, a).queue.maxSize == s.queue.maxSize
    ensures Apply(s, a).producers.Keys == s.producers.Keys
    ensures |Apply(s, a).producers| == |s.producers|
  {
    ProducersFixed(s, a);
    var ps := Apply(s, a).producers;
    assert |ps| == |ps.Keys| == |s.producers.Keys|;
  }

  lemma ProducersFixed(s: State, a: Action)
    requires Enabled(s, a)
    ensures Apply(s, a).producers.Keys == s.producers.Keys
  {
    if a.GetObject? || a.FillBuffer? || a.PushRecord? {
      var ps := Apply(s, a).producers;
      assert ps == s.producers || ps == s.producers[a.t := ps[a.t]];
    } else {
      assert Apply(s, a).producers == s.producers;
    }
  }

  // --------------------------------------------------------------- shutdown

  predicate Torn(s: State) { s.destroyer.FreeingPool? || s.destroyer.FreeingQueue? || s.destroyer.Gone? }

  predicate PoisonSent(s: State) { !s.destroyer.NotBegun? && !s.destroyer.PushingPoison? }

  /** The log thread and the destructor's `close`, as far as the join can tell. */
  ghost predicate JoinLink(s: State)
  {
    && J.Inv(s.join) && |s.join.runners| == 1
    && (s.join.runners[0].Callbacks? ==> s.join.runners[0].left <= 1)
    && (J.AllCalled(s.join.runners[0]) ==> s.logger.Finished?)
    && (forall t :: t in s.join.closers ==> t == DESTROYER && PoisonSent(s))
    && (Torn(s) ==> J.At(s.join, DESTROYER, J.Returned))
  }

  /** The null record is pushed last and ends the log thread with the queue empty. */
  ghost predicate Phase(s: State)
  {
    && (!s.destroyer.NotBegun? ==> forall t :: t in s.producers ==> s.producers[t].Idle?)
    && (!PoisonSent(s) ==> Poison !in s.queue.items && !s.logger.Finished?)
    && (PoisonSent(s) && s.logger.Finished? ==> s.queue.items == [])
    && (PoisonSent(s) && !s.logger.Finished? ==> PoisonLast(s.queue.items))
    && s.sinkAlive == !Torn(s)
  }

  predicate PoisonLast(items: seq<Item>)
  {
    items != [] && items[|items| - 1] == Poison && Poison !in items[..|items| - 1]
  }

  lemma JoinStepLink(s: State, a: J.Action)
    requires JoinLink(s) && Enabled(s, Join(a))
    ensures JoinLink(Apply(s, Join(a)))
  {
    J.StepKeeps(s.join, a);
  }

  /** A step outside the join: threads only go forward. */
  lemma OtherProgress(s: State, a: Action)
    requires Enabled(s, a) && !a.Join?
    ensures var s' := Apply(s, a);
      && s'.join == s.join
      && (s.logger.Finished? ==> s'.logger.Finished?)
      && (PoisonSent(s) ==> PoisonSent(s'))
      && (Torn(s') ==> Torn(s) || J.At(s.join, DESTROYER, J.Returned))
  {
    hide J.At, Q.Apply, Q.Enabled;
  }

  lemma JoinLinkKept(s: State, a: Action)
    requires JoinLink(s) && Enabled(s, a)
    ensures JoinLink(Apply(s, a))
  {
    hide Apply, Torn, PoisonSent, J.Inv, J.At;
    if a.Join? { JoinStepLink(s, a.a); } else { OtherProgress(s, a); }
  }

  lemma PopPhase(s: State, w: Choice)
    requires Phase(s) && Enabled(s, PopRecord(w))
    ensures Phase(Apply(s, PopRecord(w)))
  {
    var items := s.queue.items;
    if items != [] {
      assert items == [items[0]] + items[1..];
      if PoisonSent(s) && |items| > 1 {
        assert items[0] == items[..|items| - 1][0];
        assert items[1..][..|items| - 2] == items[..|items| - 1][1..];
      }
    }
  }

  lemma PhaseKept(s: State, a: Action)
    requires JoinLink(s) && Phase(s) && Enabled(s, a)
    ensures Phase(Apply(s, a))
  {
    var s' := Apply(s, a);
    match a {
      case PushRecord(_, _) =>
        assert s.destroyer.NotBegun?;
        assert forall x :: x in s'.queue.items ==> x in s.queue.items || x.Filled?;
      case PopRecord(w) => PopPhase(s, w);
      case PushPoison(_) =>
        if !s.queue.Full() {
          assert s'.queue.items[..|s.queue.items|] == s.queue.items;
        }
      case _ =>
    }
  }

  /** When `close` has returned, everything is in its final place. */
  lemma AfterClose(s: State)
    requires JoinLink(s) && Phase(s) && J.At(s.join, DESTROYER, J.Returned)
    ensures s.logger.Finished? && s.queue.items == []
    ensures forall t :: t in s.producers ==> s.producers[t].Idle?
  {
    assert J.Knows(s.join, DESTROYER, J.Returned);
  }

  // ------------------------------------------- allocation and deallocation

  predicate PoolFreed(s: State) { s.destroyer.FreeingQueue? || s.destroyer.Gone? }

  ghost predicate Accounted(s: State)
  {
    && (!PoolFreed(s) ==> s.freed == [] && forall b: Id :: b < s.pool.made ==> b in s.owner)
    && (PoolFreed(s) ==> NoDuplicates(s.freed) && forall b: Id :: b in s.freed <==> b < s.pool.made)
    && (s.queue.Bounded() ==> s.pool.made <= s.queue.maxSize + |s.producers| + 1)
  }

  function QueueBuffers(items: seq<Item>): (bs: set<Id>)
    ensures |bs| <= |items|
    ensures forall b :: Filled(b) in items ==> b in bs
  {
    if items == [] then {}
    else QueueBuffers(items[1..]) + (if items[0].Filled? then {items[0].b} else {})
  }

  /** Buffers held by the producers among `ts`: at most one each. */
  lemma {:induction false} HeldAtMost(ps: map<Tid, Producer>, ts: set<Tid>) returns (bs: set<Id>)
    requires ts <= ps.Keys
    ensures |bs| <= |ts| && forall t :: t in ts && !ps[t].Idle? ==> ps[t].b in bs
    decreases |ts|
  {
    if ts == {} {
      bs := {};
    } else {
      var t :| t in ts;
      bs := HeldAtMost(ps, ts - {t});
      if !ps[t].Idle? { bs := bs + {ps[t].b}; }
    }
  }

  lemma {:induction false} AtLeast(bs: set<Id>, n: nat)
    requires forall b: Id :: b < n ==> b in bs
    ensures |bs| >= n
    decreases n
  {
    if n > 0 {
      AtLeast(bs - {n - 1}, n - 1);
    }
  }

  /** With an empty pool every buffer is queued, with the log thread, or with one of the
      other producers: so a new one stays within the bound. */
  lemma NewBufferBound(s: State, t: Tid)
    requires Ownership(s) && Waiters(s) && Accounted(s) && s.queue.Bounded() && !PoolFreed(s)
    requires t in s.producers && s.producers[t].Idle? && s.pool.reused == []
    ensures s.pool.made + 1 <= s.queue.maxSize + |s.producers| + 1
  {
    hide Ownership, LoggerHolds, QueueBuffers;
    LoggerHoldsOne(s.logger);
    var queued := QueueBuffers(s.queue.items);
    var others := s.producers.Keys - {t};
    var held := HeldAtMost(s.producers, others);
    assert |others| == |s.producers| - 1;
    var all := queued + held + LoggerHolds(s.logger);
    forall b: Id | b < s.pool.made ensures b in all { OutOfPool(s, t, held, b); }
    AtLeast(all, s.pool.made);
    assert |all| <= |queued + held| + |LoggerHolds(s.logger)|;
    assert |queued + held| <= |queued| + |held|;
  }

  lemma LoggerHoldsOne(l: Logger)
    ensures |LoggerHolds(l)| <= 1
  {
  }

  lemma OutOfPool(s: State, t: Tid, held: set<Id>, b: Id)
    requires Ownership(s) && b in s.owner && s.pool.reused == []
    requires t in s.producers ==> s.producers[t].Idle?
    requires forall u :: u in s.producers.Keys - {t} && !s.producers[u].Idle? ==> s.producers[u].b in held
    ensures b in QueueBuffers(s.queue.items) + held + LoggerHolds(s.logger)
  {
    match s.owner[b] {
      case InPool => assert false;
      case WithProducer(u) => assert Holds(s.producers[u]) == {b};
      case InQueue =>
      case WithLogger =>
    }
  }

  lemma GetObjectAccounted(s: State, t: Tid, rec: Record)
    requires Ownership(s) && Waiters(s) && Accounted(s) && Enabled(s, GetObject(t, rec))
    ensures Accounted(Apply(s, GetObject(t, rec)))
  {
    ShapeKept(s, GetObject(t, rec));
    if s.queue.Bounded() && s.pool.reused == [] { NewBufferBound(s, t); }
  }

  /** No other step makes or deletes a buffer. */
  lemma NothingMade(s: State, a: Action)
    requires PoolOwns(s.owner, s.pool) && Enabled(s, a) && !a.GetObject? && !a.FreePool? && !a.FreeQueue?
    ensures var s' := Apply(s, a);
      && s'.pool.made == s.pool.made && s'.freed == s.freed && PoolFreed(s') == PoolFreed(s)
      && (forall b :: b in s.owner ==> b in s'.owner)
  {
    var s' := Apply(s, a);
    if !a.PushRecord? && !a.PopRecord? && !a.ReturnObject? { assert s'.owner == s.owner; }
  }

  lemma OtherStepAccounted(s: State, a: Action)
    requires PoolOwns(s.owner, s.pool) && Accounted(s) && Enabled(s, a)
    requires !a.GetObject? && !a.FreePool? && !a.FreeQueue?
    ensures Accounted(Apply(s, a))
  {
    ShapeKept(s, a);
    NothingMade(s, a);
  }

  lemma AccountedKept(s: State, a: Action)
    requires Ownership(s) && Waiters(s) && JoinLink(s) && Phase(s) && Accounted(s) && Enabled(s, a)
    ensures Accounted(Apply(s, a))
  {
    hide Apply, Accounted, Waiters, JoinLink, Phase;
    match a {
      case GetObject(t, rec) => GetObjectAccounted(s, t, rec);
      case FreePool => FreePoolAccounted(s);
      case FreeQueue => FreeQueueAccounted(s);
      case _ => OtherStepAccounted(s, a);
    }
  }

  /** The queue's own destructor finds nothing to delete. */
  lemma FreeQueueAccounted(s: State)
    requires JoinLink(s) && Phase(s) && Accounted(s) && Enabled(s, FreeQueue)
    ensures Accounted(Apply(s, FreeQueue))
  {
    AfterClose(s);
    assert s.freed + [] == s.freed;
  }

  /** At teardown all buffers are back in the pool. */
  lemma FreePoolAccounted(s: State)
    requires Ownership(s) && JoinLink(s) && Phase(s) && Accounted(s) && Enabled(s, FreePool)
    ensures Accounted(Apply(s, FreePool))
  {
    AfterClose(s);
    assert [] + s.pool.reused == s.pool.reused;
    forall b: Id | b < s.pool.made ensures b in s.pool.reused {
      assert !s.owner[b].WithProducer? && s.owner[b] != InQueue && s.owner[b] != WithLogger;
    }
  }

  // ------------------------------------------------------- the whole system

  ghost predicate Inv(s: State)
  {
    && Ownership(s) && Contents(s) && Waiters(s) && JoinLink(s) && Phase(s) && Accounted(s)
  }

  lemma StepKeeps(s: State, a: Action)
    requires Inv(s) && Enabled(s, a)
    ensures Inv(Apply(s, a))
  {
    if a.FreePool? { AfterClose(s); }
    OwnershipKept(s, a);
    ContentsKept(s, a);
    WaitersKept(s, a);
    JoinLinkKept(s, a);
    PhaseKept(s, a);
    AccountedKept(s, a);
  }

  lemma InitialInv(queueSize: nat, producers: set<Tid>)
    requires LOGGER !in producers && DESTROYER !in producers
    ensures Inv(Initial(queueSize, producers))
  {
    var s := Initial(queueSize, producers);
    InitialOwnership(s, queueSize, producers);
    InitialContents(s, queueSize, producers);
    InitialWaiters(s, queueSize, producers);
    InitialPhase(s, queueSize, producers);
  }

  lemma InitialContents(s: State, queueSize: nat, producers: set<Tid>)
    requires s == Initial(queueSize, producers)
    ensures Contents(s) && Accounted(s)
  {
    assert s.received + (InFlight(s.heap, s.logger) + Queued(s.heap, s.queue.items)) == [];
  }

  lemma InitialWaiters(s: State, queueSize: nat, producers: set<Tid>)
    requires s == Initial(queueSize, producers) && LOGGER !in producers && DESTROYER !in producers
    ensures Waiters(s)
  {
  }

  lemma InitialOwnership(s: State, queueSize: nat, producers: set<Tid>)
    requires s == Initial(queueSize, producers)
    ensures Ownership(s)
  {
  }

  lemma InitialPhase(s: State, queueSize: nat, producers: set<Tid>)
    requires s == Initial(queueSize, producers)
    ensures JoinLink(s) && Phase(s)
  {
    assert s.join.runners == [J.Callbacks(1)];
  }

  lemma {:induction false} RunKeeps(ss: seq<State>, acts: seq<Action>, i: nat)
    requires IsRun(ss, acts) && Inv(ss[0]) && i <= |acts|
    ensures Inv(ss[i])
    decreases i
  {
    if i > 0 {
      RunKeeps(ss, acts, i - 1);
      StepKeeps(ss[i - 1], acts[i - 1]);
    }
  }

  /** A run of the sink with these producers from its construction on. */
  ghost predicate SinkRun(ss: seq<State>, acts: seq<Action>, queueSize: nat, producers: set<Tid>)
  {
    && LOGGER !in producers && DESTROYER !in producers
    && IsRun(ss, acts) && ss[0] == Initial(queueSize, producers)
  }

  lemma RunInv(ss: seq<State>, acts: seq<Action>, queueSize: nat, producers: set<Tid>, i: nat)
    requires SinkRun(ss, acts, queueSize, producers) && i <= |acts|
    ensures Inv(ss[i])
  {
    InitialInv(queueSize, producers);
    RunKeeps(ss, acts, i);
  }

  /** At all times the adapted sink has received, byte for byte, a prefix of the records in
      the order they were pushed; it is alive whenever it is called; and when `close` has
      returned it has received all of them, exactly once. */
  lemma Delivery(ss: seq<State>, acts: seq<Action>, queueSize: nat, producers: set<Tid>, i: nat)
    requires SinkRun(ss, acts, queueSize, producers) && i <= |acts|
    ensures ss[i].received <= ss[i].pushed
    ensures i < |acts| && acts[i].LogRecord? ==> ss[i].sinkAlive
    ensures J.At(ss[i].join, DESTROYER, J.Returned) ==> ss[i].received == ss[i].pushed
    ensures !ss[i].sinkAlive ==> ss[i].received == ss[i].pushed
  {
    RunInv(ss, acts, queueSize, producers, i);
    DeliveredSoFar(ss[i]);
  }

  lemma DeliveredSoFar(s: State)
    requires Contents(s) && JoinLink(s) && Phase(s)
    ensures s.received <= s.pushed
    ensures s.logger.Logging? ==> s.sinkAlive
    ensures Torn(s) || J.At(s.join, DESTROYER, J.Returned) ==> s.received == s.pushed
  {
    if J.At(s.join, DESTROYER, J.Returned) {
      AfterClose(s);
      assert s.received + ([] + []) == s.received;
    }
  }

  /** The places a buffer can be: how often it lies in each. */
  function Count(s: State, b: Id): nat
  {
    multiset(s.pool.reused)[b] + multiset(s.queue.items)[Filled(b)]
    + |set t | t in s.producers && b in Holds(s.producers[t])|
    + |LoggerHolds(s.logger) * {b}|
  }

  /** Until the teardown every buffer made is in exactly one place, pooled buffers are empty,
      and at most queue bound + producers + 1 were ever made. */
  lemma BufferPlaces(ss: seq<State>, acts: seq<Action>, queueSize: nat, producers: set<Tid>, i: nat)
    requires SinkRun(ss, acts, queueSize, producers) && i <= |acts|
    ensures !PoolFreed(ss[i]) ==> forall b: Id :: b < ss[i].pool.made ==> Count(ss[i], b) == 1
    ensures forall b :: b in ss[i].pool.reused ==> Text(ss[i].heap, b) == []
    ensures queueSize > 0 ==> ss[i].pool.made <= queueSize + |producers| + 1
  {
    RunInv(ss, acts, queueSize, producers, i);
    ConstantShape(ss, acts, i);
    assert ss[0].producers.Keys == producers;
    assert |ss[i].producers| == |ss[i].producers.Keys| == |producers|;
    if !PoolFreed(ss[i]) {
      forall b: Id | b < ss[i].pool.made ensures Count(ss[i], b) == 1 { OnePlace(ss[i], b); }
    }
  }

  lemma {:induction false} ConstantShape(ss: seq<State>, acts: seq<Action>, i: nat)
    requires IsRun(ss, acts) && i <= |acts|
    ensures ss[i].queue.maxSize == ss[0].queue.maxSize && ss[i].producers.Keys == ss[0].producers.Keys
    decreases i
  {
    if i > 0 {
      ConstantShape(ss, acts, i - 1);
      ShapeKept(ss[i - 1], acts[i - 1]);
    }
  }

  lemma {:induction false} Occurs<T>(s: seq<T>, x: T)
    requires forall i, j :: 0 <= i < j < |s| && s[i] == x ==> s[j] != x
    ensures multiset(s)[x] == if x in s then 1 else 0
    decreases |s|
  {
    if s != [] {
      assert s == [s[0]] + s[1..];
      Occurs(s[1..], x);
      if s[0] == x { assert forall j :: 0 <= j < |s[1..]| ==> s[1..][j] != x; }
    }
  }

  lemma OnePlace(s: State, b: Id)
    requires Ownership(s) && b in s.owner
    ensures Count(s, b) == 1
  {
    Occurs(s.pool.reused, b);
    Occurs(s.queue.items, Filled(b));
    var holders := set t | t in s.producers && b in Holds(s.producers[t]);
    assert forall t :: t in holders ==> s.owner[b] == WithProducer(t);
    match s.owner[b] {
      case WithProducer(t) =>
        assert Holds(s.producers[t]) == {b};
        assert holders == {t};
      case _ => assert holders == {};
    }
    assert LoggerHolds(s.logger) * {b} == if s.owner[b] == WithLogger then {b} else {};
  }

  /** When everything is deleted, each buffer ever made was deleted exactly once. */
  lemma FreedOnce(ss: seq<State>, acts: seq<Action>, queueSize: nat, producers: set<Tid>, i: nat, b: Id)
    requires SinkRun(ss, acts, queueSize, producers) && i <= |acts| && ss[i].destroyer.Gone?
    ensures multiset(ss[i].freed)[b] == if b < ss[i].pool.made then 1 else 0
    ensures !ss[i].sinkAlive
  {
    RunInv(ss, acts, queueSize, producers, i);
    Occurs(ss[i].freed, b);
  }
}
