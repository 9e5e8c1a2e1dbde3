/** The asynchronous log sink: producers hand filled buffers to one log thread through a
    bounded queue; the destructor pushes a null record, joins the thread and deletes.
    Every atomic step of every thread is an action; runs are all their interleavings. */
module AsyncSink {
  import opened ByteStrings
  import B = BufferSpec
  import opened Conditions
  import opened ObjectPools
  import Q = ConcurrentQueues
  import J = ThreadJoin

  type Record = seq<byte>

  /** Thread names; every other thread may be a producer. */
  const LOGGER: Tid := 0
  const DESTROYER: Tid := 1

  /** DynamicBuffer's default sizes. */
  const INIT_SIZE: nat := 1024
  const EXPAND_SIZE: nat := 1024

  datatype Item = Poison | Filled(b: Id)

  /** `Impl::log`: between calls, with a pooled buffer, and with it filled, in `push`. */
  datatype Producer = Idle | Holding(b: Id, rec: Record) | Pushing(b: Id, rec: Record)

  /** `logThreadFunc`. */
  datatype Logger = Popping | Logging(b: Id) | Draining(b: Id) | Returning(b: Id) | Finished

  /** `~Impl`, then the members in reverse order of declaration. */
  datatype Destroyer = NotBegun | PushingPoison | Joining | FreeingPool | FreeingQueue | Gone

  /** Who is responsible for a buffer; kept beside the program state, never read by it. */
  datatype Owner = InPool | WithProducer(t: Tid) | InQueue | WithLogger

  datatype State = State(
    queue: Q.Queue<Item>, pool: Pool, heap: map<Id, B.Buf>, owner: map<Id, Owner>,
    producers: map<Tid, Producer>, logger: Logger, destroyer: Destroyer, join: J.State,
    pushed: seq<Record>, received: seq<Record>, sinkAlive: bool, freed: seq<Id>)

  /** After the constructor: the log thread has been started. */
  function Initial(queueSize: nat, producers: set<Tid>): State
  {
    State(Q.Empty(queueSize), Pool([], 0), map[], map[],
          map t | t in producers :: Idle, Popping, NotBegun, J.Started([], 1, 0),
          [], [], true, [])
  }

  datatype Action =
    | GetObject(t: Tid, rec: Record) | FillBuffer(t: Tid) | PushRecord(t: Tid, w: Choice)
    | PopRecord(w: Choice) | LogRecord | Drain | ReturnObject
    | BeginDestroy | PushPoison(w: Choice) | Join(a: J.Action)
    | DeleteSink | FreePool | FreeQueue
    | SpuriousPush(t: Tid) | SpuriousPop

  predicate Producing(s: State, t: Tid) { t in s.producers && !s.producers[t].Idle? }

  function Holds(p: Producer): set<Id> { if p.Idle? then {} else {p.b} }

  function LoggerHolds(l: Logger): set<Id>
  {
    if l.Popping? || l.Finished? then {} else {l.b}
  }

  /** Steps of the log thread's life and of the destructor's `close`. */
  predicate JoinAllowed(s: State, a: J.Action)
  {
    match a
    case Start(_) => false
    case Exit => false
    case FinishCallback(_) => s.logger.Finished?
    case Close(t) => t == DESTROYER && s.destroyer.Joining? && t !in s.join.closers
    case _ => true
  }

  /** The size of a record leaves room for two expansions in 64 bits. */
  predicate Loggable(rec: Record) { |rec| + 2 * EXPAND_SIZE < TWO64 }

  predicate Enabled(s: State, a: Action)
  {
    match a
    case GetObject(t, rec) =>
      t in s.producers && s.producers[t].Idle? && s.destroyer.NotBegun? && Loggable(rec)
    case FillBuffer(t) =>
      t in s.producers && s.producers[t].Holding? && s.producers[t].b in s.heap
      && var b := s.heap[s.producers[t].b]; b.Valid() && b.CanReserve(|s.producers[t].rec|)
    case PushRecord(t, w) =>
      t in s.producers && s.producers[t].Pushing?
      && Q.Enabled(s.queue, Q.Push(t, Filled(s.producers[t].b), w))
    case PopRecord(w) => s.logger.Popping? && Q.Enabled(s.queue, Q.Pop(LOGGER, w))
    case LogRecord => s.logger.Logging? && s.logger.b in s.heap && s.heap[s.logger.b].Valid()
    case Drain => s.logger.Draining? && s.logger.b in s.heap && s.heap[s.logger.b].Valid()
    case ReturnObject => s.logger.Returning?
    case BeginDestroy =>
      s.destroyer.NotBegun? && forall t :: t in s.producers ==> s.producers[t].Idle?
    case PushPoison(w) => s.destroyer.PushingPoison? && Q.Enabled(s.queue, Q.Push(DESTROYER, Poison, w))
    case Join(a) => J.Enabled(s.join, a) && JoinAllowed(s, a)
    case DeleteSink => s.destroyer.Joining? && J.At(s.join, DESTROYER, J.Returned)
    case FreePool => s.destroyer.FreeingPool?
    case FreeQueue => s.destroyer.FreeingQueue?
    case SpuriousPush(t) => t in s.queue.notFull.asleep
    case SpuriousPop => LOGGER in s.queue.notEmpty.asleep
  }

  /** Buffers a deque of items refers to. */
  function Buffers(items: seq<Item>): seq<Id>
  {
    if items == [] then []
    else (if items[0].Filled? then [items[0].b] else []) + Buffers(items[1..])
  }

  function Apply(s: State, a: Action): State
    requires Enabled(s, a)
  {
    match a
    case GetObject(t, rec) =>
      var (b, pool) := Take(s.pool);
      s.(pool := pool, producers := s.producers[t := Holding(b, rec)],
         heap := if b in s.heap then s.heap else s.heap[b := B.Fresh(INIT_SIZE, EXPAND_SIZE)],
         owner := s.owner[b := WithProducer(t)])
    case FillBuffer(t) =>
      var p := s.producers[t];
      s.(heap := s.heap[p.b := B.WriteBytes(s.heap[p.b], p.rec)],
         producers := s.producers[t := Pushing(p.b, p.rec)])
    case PushRecord(t, w) =>
      var p := s.producers[t];
      var s1 := s.(queue := Q.Apply(s.queue, Q.Push(t, Filled(p.b), w)));
      if s.queue.Full() then s1
      else s1.(producers := s.producers[t := Idle], pushed := s.pushed + [p.rec],
               owner := s.owner[p.b := InQueue])
    case PopRecord(w) =>
      var s1 := s.(queue := Q.Apply(s.queue, Q.Pop(LOGGER, w)));
      if s.queue.items == [] then s1
      else if s.queue.items[0].Poison? then s1.(logger := Finished)
      else s1.(logger := Logging(s.queue.items[0].b),
               owner := s.owner[s.queue.items[0].b := WithLogger])
    case LogRecord =>
      s.(logger := Draining(s.logger.b), received := s.received + [s.heap[s.logger.b].Readable()])
    case Drain =>
      var b := s.heap[s.logger.b];
      s.(logger := Returning(s.logger.b), heap := s.heap[s.logger.b := B.Read(b, b.ReadableBytes())])
    case ReturnObject =>
      s.(logger := Popping, pool := Give(s.pool, s.logger.b), owner := s.owner[s.logger.b := InPool])
    case BeginDestroy => s.(destroyer := PushingPoison)
    case PushPoison(w) =>
      var s1 := s.(queue := Q.Apply(s.queue, Q.Push(DESTROYER, Poison, w)));
      if s.queue.Full() then s1 else s1.(destroyer := Joining)
    case Join(a) => s.(join := J.Apply(s.join, a))
    case DeleteSink => s.(sinkAlive := false, destroyer := FreeingPool)
    case FreePool =>
      s.(freed := s.freed + s.pool.reused, pool := s.pool.(reused := []), destroyer := FreeingQueue,
         heap := s.heap - (set b | b in s.pool.reused), owner := s.owner - (set b | b in s.pool.reused))
    case FreeQueue =>
      s.(freed := s.freed + Buffers(s.queue.items), destroyer := Gone)
    case SpuriousPush(t) => s.(queue := Q.Apply(s.queue, Q.SpuriousPush(t)))
    case SpuriousPop => s.(queue := Q.Apply(s.queue, Q.SpuriousPop(LOGGER)))
  }

  /** Wakeups nobody sent. */
  predicate Spurious(a: Action)
  {
    a.SpuriousPush? || a.SpuriousPop? || (a.Join? && a.a.SemSpurious?)
  }

  ghost predicate IsRun(ss: seq<State>, acts: seq<Action>)
  {
    && |ss| == |acts| + 1
    && (forall i :: 0 <= i < |acts| ==> Enabled(ss[i], acts[i]) && ss[i + 1] == Apply(ss[i], acts[i]))
  }
}
