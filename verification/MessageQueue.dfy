/** The message queue that wakes an event loop through a pipe: a producer enqueues and then
    writes a byte; the loop reads the pipe empty and only then calls the consumer. */
module MessageQueues {
  import opened Conditions

  const READ_CHUNK: nat := 1024

  /** The event loop: in its poll, reading the pipe, or in the consumer's callback.
      `settled` says that the callback has found the queue empty or called `yield`. */
  datatype Loop = Polling | Reading | InCallback(settled: bool)

  datatype State<T> = State(queue: seq<T>, maxSize: nat, pipe: nat, capacity: nat, pushing: set<Tid>,
                            loop: Loop, pushed: seq<T>, popped: seq<T>) {
    /** `max_size_` 0 means unbounded; a `push` that finds no room waits for some. */
    predicate Room() { maxSize == 0 || |queue| < maxSize }

    /** A byte in the pipe, or a producer about to write one. */
    predicate Covered() { pipe > 0 || pushing != {} }

    /** No message waits unseen. */
    predicate Handshake() { queue != [] ==> Covered() || !loop.Polling? }
  }

  function Initial<T>(maxSize: nat, capacity: nat): State<T>
  {
    State([], maxSize, 0, capacity, {}, Polling, [], [])
  }

  /** `push` is `Enqueue` then `Signal`; `Dispatch` is the poll reporting the pipe readable;
      `PopNone` is a `pop` that returns false. */
  datatype Action<T> =
    | Enqueue(t: Tid, x: T) | Signal(t: Tid)
    | Dispatch | ReadPipe | PopItem | PopNone | Yield | Return

  predicate Enabled<T>(s: State<T>, a: Action<T>)
  {
    match a
    case Enqueue(t, _) => t !in s.pushing && s.Room()
    case Signal(t) => t in s.pushing
    case Dispatch => s.loop.Polling? && s.pipe > 0
    case ReadPipe => s.loop.Reading?
    case PopItem => s.loop.InCallback? && s.queue != []
    case PopNone => s.loop.InCallback? && s.queue == []
    case Yield => s.loop.InCallback?
    case Return => s.loop.InCallback?
  }

  /** A write to the non-blocking pipe: dropped when the pipe is full. */
  function Written(pipe: nat, capacity: nat): nat { if pipe < capacity then pipe + 1 else pipe }

  function Apply<T>(s: State<T>, a: Action<T>): State<T>
    requires Enabled(s, a)
  {
    match a
    case Enqueue(t, x) => s.(queue := s.queue + [x], pushing := s.pushing + {t}, pushed := s.pushed + [x])
    case Signal(t) => s.(pipe := Written(s.pipe, s.capacity), pushing := s.pushing - {t})
    case Dispatch => s.(loop := Reading)
    case ReadPipe =>
      if s.pipe == 0 then s.(loop := InCallback(false))
      else s.(pipe := if s.pipe < READ_CHUNK then 0 else s.pipe - READ_CHUNK)
    case PopItem => s.(queue := s.queue[1..], popped := s.popped + [s.queue[0]])
    case PopNone => s.(loop := InCallback(true))
    case Yield => s.(pipe := Written(s.pipe, s.capacity), loop := InCallback(true))
    case Return => s.(loop := Polling)
  }

  ghost predicate IsRun<T>(ss: seq<State<T>>, acts: seq<Action<T>>)
  {
    && |ss| == |acts| + 1
    && (forall i :: 0 <= i < |acts| ==> Enabled(ss[i], acts[i]) && ss[i + 1] == Apply(ss[i], acts[i]))
  }

  /** The consumer pops until empty or yields before it returns. */
  ghost predicate Polite<T>(ss: seq<State<T>>, acts: seq<Action<T>>)
  {
    IsRun(ss, acts) && forall i :: 0 <= i < |acts| && acts[i].Return? ==> ss[i].loop.settled
  }

  ghost predicate Inv<T>(s: State<T>)
  {
    && 0 < s.capacity && s.pipe <= s.capacity
    && (s.maxSize > 0 ==> |s.queue| <= s.maxSize)
    && s.popped + s.queue == s.pushed
    && (s.loop.Polling? || (s.loop.InCallback? && s.loop.settled) ==> s.queue != [] ==> s.Covered())
  }

  lemma StepKeeps<T>(s: State<T>, a: Action<T>)
    requires Inv(s) && Enabled(s, a) && (a.Return? ==> s.loop.settled)
    ensures Inv(Apply(s, a)) && Apply(s, a).maxSize == s.maxSize
  {
    match a {
      case Enqueue(t, x) =>
        assert t in Apply(s, a).pushing;
        assert s.popped + (s.queue + [x]) == (s.popped + s.queue) + [x];
      case PopItem => assert (s.popped + [s.queue[0]]) + s.queue[1..] == s.popped + s.queue;
      case _ =>
    }
  }

  lemma {:induction false} RunKeeps<T>(ss: seq<State<T>>, acts: seq<Action<T>>, i: nat)
    requires Polite(ss, acts) && Inv(ss[0]) && i <= |acts|
    ensures Inv(ss[i]) && ss[i].maxSize == ss[0].maxSize
    decreases i
  {
    if i > 0 {
      RunKeeps(ss, acts, i - 1);
      StepKeeps(ss[i - 1], acts[i - 1]);
    }
  }

  /** With a polite consumer, in every interleaving and whatever writes a full pipe drops:
      messages leave in push order, none waits unseen, and when everything is quiet all of
      them have been delivered. */
  lemma HandshakeHolds<T>(ss: seq<State<T>>, acts: seq<Action<T>>, maxSize: nat, capacity: nat, i: nat)
    requires Polite(ss, acts) && capacity > 0 && ss[0] == Initial(maxSize, capacity) && i <= |acts|
    ensures ss[i].Handshake()
    ensures ss[i].popped + ss[i].queue == ss[i].pushed && (maxSize > 0 ==> |ss[i].queue| <= maxSize)
    ensures ss[i].loop.Polling? && ss[i].pipe == 0 && ss[i].pushing == {} ==> ss[i].popped == ss[i].pushed
  {
    RunKeeps(ss, acts, i);
  }

  /** Hence a queue with something in it, full or not, never depends on another push: a
      producer that has pushed, or the loop, can take a step. */
  lemma NeverWaitsForPush<T>(ss: seq<State<T>>, acts: seq<Action<T>>, maxSize: nat, capacity: nat, i: nat)
    requires Polite(ss, acts) && capacity > 0 && ss[0] == Initial(maxSize, capacity) && i <= |acts|
    requires ss[i].queue != []
    ensures exists a: Action<T> :: !a.Enqueue? && Enabled(ss[i], a)
  {
    RunKeeps(ss, acts, i);
    var s := ss[i];
    match s.loop {
      case Reading => assert Enabled(s, ReadPipe);
      case InCallback(_) => assert Enabled(s, PopItem);
      case Polling =>
        if s.pipe > 0 {
          assert Enabled(s, Dispatch);
        } else {
          var t :| t in s.pushing;
          assert Enabled(s, Signal(t));
        }
    }
  }

  /** A callback that returns unsettled with nothing covering the queue strands it, and the
      queue stays stranded until the next push: the loop alone cannot move, and if the queue
      is full nobody can. */
  lemma StrandedUntilPush<T>(s: State<T>, a: Action<T>)
    requires !s.Handshake() && Enabled(s, a)
    ensures a.Enqueue? && s.Room() && Apply(s, a).Handshake()
  {
    if a.Enqueue? { assert a.t in Apply(s, a).pushing; }
  }

  // ---------------------------------------- a reader with a message budget

  /** Messages popped, and whether any was pushed, among the first `i` actions. */
  function Taken<T>(acts: seq<Action<T>>, i: nat): nat
    requires i <= |acts|
  {
    if i == 0 then 0 else Taken(acts, i - 1) + (if acts[i - 1].PopItem? then 1 else 0)
  }

  predicate Pushed<T>(acts: seq<Action<T>>, i: nat)
    requires i <= |acts|
  {
    exists j :: 0 <= j < i && acts[j].Enqueue?
  }

  /** One callback of a reader that pops until the queue is empty or `budget` messages are
      handled, and then returns without a `yield`; producers may do anything in between. */
  ghost predicate BudgetReader<T>(ss: seq<State<T>>, acts: seq<Action<T>>, budget: nat)
  {
    && 0 < budget && IsRun(ss, acts) && acts != [] && acts[|acts| - 1].Return?
    && ss[0].loop == InCallback(false) && ss[0].capacity > 0
    && (forall i :: 0 <= i < |acts| - 1 ==>
          || acts[i].Enqueue? || acts[i].Signal?
          || ((acts[i].PopItem? || acts[i].PopNone?) && !ss[i].loop.settled && Taken(acts, i) < budget))
    && (ss[|acts| - 1].loop.settled || Taken(acts, |acts| - 1) == budget)
  }

  /** The reader at work: a cover is never lost, and without one nobody has pushed. */
  ghost predicate Reader<T>(q0: seq<T>, covered0: bool, s: State<T>, pushed: bool, taken: nat, budget: nat)
  {
    && s.loop.InCallback? && s.capacity > 0 && taken <= budget
    && (s.Covered() <==> covered0 || pushed)
    && (s.Covered() || (taken <= |q0| && s.queue == q0[taken..]))
    && (s.loop.settled ==> s.Covered() || s.queue == [])
  }

  lemma ReaderStep<T>(q0: seq<T>, covered0: bool, s: State<T>, pushed: bool, taken: nat, budget: nat, a: Action<T>)
    requires Reader(q0, covered0, s, pushed, taken, budget) && Enabled(s, a)
    requires a.Enqueue? || a.Signal? || ((a.PopItem? || a.PopNone?) && taken < budget)
    ensures Reader(q0, covered0, Apply(s, a), pushed || a.Enqueue?, taken + (if a.PopItem? then 1 else 0), budget)
  {
    if a.Enqueue? { assert a.t in Apply(s, a).pushing; }
  }

  lemma {:induction false} ReaderKeeps<T>(ss: seq<State<T>>, acts: seq<Action<T>>, budget: nat, i: nat)
    requires BudgetReader(ss, acts, budget) && i < |acts|
    ensures Reader(ss[0].queue, ss[0].Covered(), ss[i], Pushed(acts, i), Taken(acts, i), budget)
    decreases i
  {
    if i > 0 {
      ReaderKeeps(ss, acts, budget, i - 1);
      ReaderStep(ss[0].queue, ss[0].Covered(), ss[i - 1], Pushed(acts, i - 1), Taken(acts, i - 1), budget, acts[i - 1]);
      assert Pushed(acts, i) <==> Pushed(acts, i - 1) || acts[i - 1].Enqueue?;
    }
  }

  /** In every interleaving, such a callback leaves the handshake intact exactly if no more
      than the budget was queued when it began, or a byte was in the pipe or on its way then,
      or somebody pushed meanwhile. */
  lemma BudgetReaderIff<T>(ss: seq<State<T>>, acts: seq<Action<T>>, budget: nat)
    requires BudgetReader(ss, acts, budget)
    ensures ss[|acts|].Handshake() <==>
      |ss[0].queue| <= budget || ss[0].Covered() || Pushed(acts, |acts|)
  {
    var n := |acts| - 1;
    ReaderKeeps(ss, acts, budget, n);
    assert Pushed(acts, |acts|) <==> Pushed(acts, n);
  }

  /** More messages than the budget do get stranded, starting from the empty queue. */
  lemma ReaderStrands<T>(budget: nat, capacity: nat, x: T)
      returns (ss: seq<State<T>>, acts: seq<Action<T>>, rs: seq<State<T>>, ras: seq<Action<T>>)
    requires budget > 0 && capacity > 0
    ensures IsRun(ss, acts) && ss[0] == Initial(0, capacity)
    ensures BudgetReader(rs, ras, budget) && rs[0] == ss[|acts|] && !rs[|ras|].Handshake()
  {
    ss, acts := Filled(budget + 1, capacity, x);
    ss, acts := Extend(ss, acts, Dispatch);
    ss, acts := Drained(ss, acts);
    rs, ras := StopEarly(ss[|acts|], budget);
    BudgetReaderIff(rs, ras, budget);
  }

  /** A callback nobody disturbs, which pops its budget and returns. */
  lemma StopEarly<T>(s: State<T>, budget: nat) returns (ss: seq<State<T>>, acts: seq<Action<T>>)
    requires s.loop == InCallback(false) && s.capacity > 0 && 0 < budget <= |s.queue|
    ensures BudgetReader(ss, acts, budget) && ss[0] == s && !Pushed(acts, |acts|)
  {
    var before, popped := PopSome(s, budget);
    ss, acts := Extend(before, popped, Return);
    forall i | 0 <= i <= budget ensures Taken(acts, i) == i { SameTaken(popped, acts, i); }
  }

  lemma Extend<T>(ss: seq<State<T>>, acts: seq<Action<T>>, a: Action<T>)
      returns (ss': seq<State<T>>, acts': seq<Action<T>>)
    requires IsRun(ss, acts) && Enabled(ss[|acts|], a)
    ensures IsRun(ss', acts') && ss' == ss + [Apply(ss[|acts|], a)] && acts' == acts + [a]
  {
    ss', acts' := ss + [Apply(ss[|acts|], a)], acts + [a];
  }

  lemma {:induction false} Filled<T>(n: nat, capacity: nat, x: T) returns (ss: seq<State<T>>, acts: seq<Action<T>>)
    requires capacity > 0
    ensures IsRun(ss, acts) && ss[0] == Initial(0, capacity)
    ensures var s := ss[|acts|];
      && |s.queue| == n && s.maxSize == 0 && s.capacity == capacity && s.pushing == {} && s.loop == Polling
      && (n > 0 ==> s.pipe > 0)
  {
    if n == 0 {
      ss, acts := [Initial(0, capacity)], [];
    } else {
      ss, acts := Filled(n - 1, capacity, x);
      ss, acts := Extend(ss, acts, Enqueue(0, x));
      ss, acts := Extend(ss, acts, Signal(0));
    }
  }

  lemma {:induction false} Drained<T>(ss: seq<State<T>>, acts: seq<Action<T>>)
      returns (ss': seq<State<T>>, acts': seq<Action<T>>)
    requires IsRun(ss, acts) && ss[|acts|].loop.Reading?
    ensures IsRun(ss', acts') && ss'[0] == ss[0]
    ensures ss'[|acts'|] == ss[|acts|].(pipe := 0, loop := InCallback(false))
    decreases ss[|acts|].pipe
  {
    ss', acts' := Extend(ss, acts, ReadPipe);
    if ss[|acts|].pipe > 0 { ss', acts' := Drained(ss', acts'); }
  }

  lemma {:induction false} PopSome<T>(s: State<T>, n: nat) returns (ss: seq<State<T>>, acts: seq<Action<T>>)
    requires s.loop == InCallback(false) && n <= |s.queue|
    ensures IsRun(ss, acts) && ss[0] == s && |acts| == n && ss[n].loop == InCallback(false)
    ensures |ss[n].queue| == |s.queue| - n
    ensures forall i :: 0 <= i < n ==> acts[i].PopItem? && ss[i].loop == InCallback(false)
    ensures forall i :: 0 <= i <= n ==> Taken(acts, i) == i
  {
    if n == 0 {
      ss, acts := [s], [];
    } else {
      var before, popped := PopSome(s, n - 1);
      ss, acts := Extend(before, popped, PopItem);
      forall i | 0 <= i < n ensures Taken(acts, i) == i { SameTaken(popped, acts, i); }
    }
  }

  lemma {:induction false} SameTaken<T>(acts: seq<Action<T>>, acts': seq<Action<T>>, i: nat)
    requires acts <= acts' && i <= |acts|
    ensures Taken(acts', i) == Taken(acts, i)
  {
    if i > 0 { SameTaken(acts, acts', i - 1); }
  }

  // ------------------------------------------------------------- the class

  /** message_queue.h, one access to the shared queue or to the pipe at a time; `state` adds
      where every producer and the event loop stand, and what has passed through. */
  class MessageQueue<T> {
    var queue: seq<T>
    var pipe: nat
    const maxSize: nat
    const capacity: nat
    ghost var state: State<T>

    ghost predicate Valid()
      reads this
    {
      && queue == state.queue && pipe == state.pipe
      && maxSize == state.maxSize && capacity == state.capacity
    }

    constructor (max: nat, pipeCapacity: nat)
      ensures Valid() && state == Initial(max, pipeCapacity)
    {
      queue, maxSize, pipe, capacity, state := [], max, 0, pipeCapacity, Initial(max, pipeCapacity);
    }

    /** A write of one byte: lost when the pipe is full. */
    method WritePipe()
      modifies this`pipe
      ensures pipe == Written(old(pipe), capacity)
    {
      if pipe < capacity { pipe := pipe + 1; }
    }

    /** The first half of `push`, once the queue has let the producer in. */
    method Enqueue(ghost t: Tid, x: T)
      requires Valid() && Enabled(state, Action.Enqueue(t, x))
      modifies this
      ensures Valid() && state == Apply(old(state), Action.Enqueue(t, x))
    {
      queue := queue + [x];
      state := Apply(state, Action.Enqueue(t, x));
    }

    /** The second half of `push`. */
    method Signal(ghost t: Tid)
      requires Valid() && Enabled(state, Action.Signal(t))
      modifies this
      ensures Valid() && state == Apply(old(state), Action.Signal(t))
    {
      WritePipe();
      state := Apply(state, Action.Signal(t));
    }

    /** `push` undisturbed: the message is queued and the loop will be told. */
    method Push(ghost t: Tid, x: T)
      requires Valid() && t !in state.pushing && state.Room() && capacity > 0
      modifies this
      ensures Valid() && queue == old(queue) + [x] && pipe > 0
      ensures state == Apply(Apply(old(state), Action.Enqueue(t, x)), Action.Signal(t))
    {
      Enqueue(t, x);
      Signal(t);
    }

    method Pop() returns (front: seq<T>)
      requires Valid() && state.loop.InCallback?
      modifies this
      ensures Valid() && front + queue == old(queue)
      ensures state == Apply(old(state), if old(queue) == [] then PopNone else PopItem)
      ensures |front| == if old(queue) == [] then 0 else 1
    {
      if queue == [] {
        state := Apply(state, PopNone);
        return [];
      }
      state := Apply(state, PopItem);
      front, queue := [queue[0]], queue[1..];
    }

    method Yield()
      requires Valid() && state.loop.InCallback?
      modifies this
      ensures Valid() && state == Apply(old(state), Action.Yield)
    {
      WritePipe();
      state := Apply(state, Action.Yield);
    }

    /** `read` of up to READ_CHUNK bytes; nothing to read is an error return. */
    method ReadPipe() returns (n: nat)
      requires Valid() && state.loop.Reading?
      modifies this
      ensures Valid() && state == Apply(old(state), Action.ReadPipe)
      ensures n == if old(pipe) < 1024 then old(pipe) else 1024
      ensures pipe == old(pipe) - n && queue == old(queue)
    {
      state := Apply(state, Action.ReadPipe);
      n := if pipe < READ_CHUNK then pipe else READ_CHUNK;
      pipe := pipe - n;
    }

    /** `pipeReadCallback`, up to the consumer's callback. */
    method DrainPipe()
      requires Valid() && state.loop.Reading?
      modifies this
      ensures Valid() && state == old(state).(pipe := 0, loop := InCallback(false))
    {
      var n := ReadPipe();
      while n > 0
        invariant Valid()
        invariant state == old(state).(pipe := pipe, loop := if n == 0 then InCallback(false) else Reading)
        invariant n == 0 ==> pipe == 0
        decreases pipe + n
      {
        n := ReadPipe();
      }
    }

    /** The reader of tcp_client.cc, between two interruptions: at most `budget` messages, and
        no yield. Undisturbed, it strands messages exactly if more than `budget` were queued and
        neither a byte was in the pipe nor one on its way. */
    method ReadUpTo(budget: nat) returns (handled: seq<T>)
      requires Valid() && state.loop.InCallback?
      requires budget > 0
      modifies this
      ensures Valid() && handled + queue == old(queue)
      ensures |handled| == if |old(queue)| < budget then |old(queue)| else budget
      ensures Enabled(state, Return) && (Apply(state, Return).Handshake() <==> |old(queue)| <= budget || old(state.Covered()))
    {
      handled := [];
      var front := Pop();
      while front != []
        invariant Valid() && state.loop.InCallback?
        invariant state.pipe == old(state.pipe) && state.pushing == old(state.pushing)
        invariant handled + front + queue == old(queue)
        invariant |front| <= 1 && |handled| < budget
        invariant front == [] ==> queue == []
        decreases |queue| + |front|
      {
        handled := handled + front;
        if |handled| >= budget { return; }
        front := Pop();
      }
    }
  }
}
