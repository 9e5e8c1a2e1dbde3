/** What every step of every thread of the asynchronous sink keeps. */
module AsyncSinkInvariants {
  import opened Basics
  import opened ByteStrings
  import B = BufferSpec
  import opened Conditions
  import opened ObjectPools
  import Q = ConcurrentQueues
  import J = ThreadJoin
  import opened AsyncSink

  // ------------------------------------------------------- buffer ownership

  /** Each place in turn: what lies there is owned by it, and what it owns lies there. */
  ghost predicate PoolOwns(owner: map<Id, Owner>, pool: Pool)
  {
    && Sound(pool)
    && (forall b :: b in owner ==> b < pool.made)
    && (forall b :: b in pool.reused ==> b in owner && owner[b] == InPool)
    && (forall b :: b in owner && owner[b] == InPool ==> b in pool.reused)
  }

  ghost predicate ProducersOwn(owner: map<Id, Owner>, producers: map<Tid, Producer>)
  {
    && (forall t :: t in producers && !producers[t].Idle? ==>
          producers[t].b in owner && owner[producers[t].b] == WithProducer(t))
    && (forall b :: b in owner && owner[b].WithProducer? ==>
          owner[b].t in producers && Holds(producers[owner[b].t]) == {b})
  }

  ghost predicate QueueOwns(owner: map<Id, Owner>, items: seq<Item>)
  {
    && (forall i :: 0 <= i < |items| && items[i].Filled? ==>
          items[i].b in owner && owner[items[i].b] == InQueue)
    && (forall i, j :: 0 <= i < j < |items| && items[i].Filled? ==> items[i] != items[j])
    && (forall b :: b in owner && owner[b] == InQueue ==> Filled(b) in items)
  }

  ghost predicate LoggerOwns(owner: map<Id, Owner>, logger: Logger)
  {
    && (forall b :: b in LoggerHolds(logger) ==> b in owner && owner[b] == WithLogger)
    && (forall b :: b in owner && owner[b] == WithLogger ==> LoggerHolds(logger) == {b})
  }

  /** Every buffer has exactly one holder, and `owner` says which. */
  ghost predicate Ownership(s: State)
  {
    && PoolOwns(s.owner, s.pool) && ProducersOwn(s.owner, s.producers)
    && QueueOwns(s.owner, s.queue.items) && LoggerOwns(s.owner, s.logger)
  }

  /** A buffer that changes hands elsewhere. */
  predicate Elsewhere(owner: map<Id, Owner>, b: Id, places: set<Owner>, x: Owner)
  {
    x !in places && (b in owner ==> owner[b] !in places)
  }

  lemma PoolTakes(owner: map<Id, Owner>, pool: Pool, x: Owner)
    requires PoolOwns(owner, pool) && x != InPool
    ensures var (b, p) := Take(pool); PoolOwns(owner[b := x], p) && (b in owner ==> owner[b] == InPool)
  {
    TakeIsUnique(pool);
    var (b, p) := Take(pool);
    if pool.reused != [] { assert pool.reused == p.reused + [b]; }
  }

  lemma PoolGains(owner: map<Id, Owner>, pool: Pool, b: Id)
    requires PoolOwns(owner, pool) && b in owner && owner[b] != InPool
    ensures PoolOwns(owner[b := InPool], Give(pool, b))
  {
    GiveTake(pool, b);
    assert forall x :: x in Give(pool, b).reused <==> x in pool.reused || x == b;
  }

  lemma PoolElse(owner: map<Id, Owner>, pool: Pool, b: Id, x: Owner)
    requires PoolOwns(owner, pool) && b in owner && Elsewhere(owner, b, {InPool}, x)
    ensures PoolOwns(owner[b := x], pool)
  {
  }

  lemma ProducerGains(owner: map<Id, Owner>, ps: map<Tid, Producer>, t: Tid, p: Producer)
    requires ProducersOwn(owner, ps) && t in ps && ps[t].Idle? && !p.Idle?
    requires p.b in owner ==> !owner[p.b].WithProducer?
    ensures ProducersOwn(owner[p.b := WithProducer(t)], ps[t := p])
  {
  }

  lemma ProducerGives(owner: map<Id, Owner>, ps: map<Tid, Producer>, t: Tid, x: Owner)
    requires ProducersOwn(owner, ps) && t in ps && !ps[t].Idle? && !x.WithProducer?
    ensures ProducersOwn(owner[ps[t].b := x], ps[t := Idle])
  {
  }

  lemma ProducersElse(owner: map<Id, Owner>, ps: map<Tid, Producer>, b: Id, x: Owner)
    requires ProducersOwn(owner, ps) && b in owner && !owner[b].WithProducer? && !x.WithProducer?
    ensures ProducersOwn(owner[b := x], ps)
  {
  }

  lemma QueueGains(owner: map<Id, Owner>, items: seq<Item>, b: Id)
    requires QueueOwns(owner, items) && b in owner && owner[b] != InQueue
    ensures QueueOwns(owner[b := InQueue], items + [Filled(b)])
  {
    assert Filled(b) !in items;
    assert forall y :: y in items + [Filled(b)] <==> y in items || y == Filled(b);
  }

  lemma QueueGainsPoison(owner: map<Id, Owner>, items: seq<Item>)
    requires QueueOwns(owner, items)
    ensures QueueOwns(owner, items + [Poison])
  {
    assert forall y :: y in items ==> y in items + [Poison];
  }

  lemma QueueGives(owner: map<Id, Owner>, items: seq<Item>, x: Owner)
    requires QueueOwns(owner, items) && items != [] && x != InQueue
    ensures items[0].Filled? ==> QueueOwns(owner[items[0].b := x], items[1..])
    ensures items[0].Poison? ==> QueueOwns(owner, items[1..])
  {
    assert items == [items[0]] + items[1..];
    assert forall y :: y in items <==> y == items[0] || y in items[1..];
  }

  lemma QueueElse(owner: map<Id, Owner>, items: seq<Item>, b: Id, x: Owner)
    requires QueueOwns(owner, items) && Elsewhere(owner, b, {InQueue}, x)
    ensures QueueOwns(owner[b := x], items)
  {
  }

  lemma LoggerElse(owner: map<Id, Owner>, logger: Logger, b: Id, x: Owner)
    requires LoggerOwns(owner, logger) && Elsewhere(owner, b, {WithLogger}, x)
    ensures LoggerOwns(owner[b := x], logger)
  {
  }

  lemma GetObjectOwned(s: State, a: Action)
    requires Ownership(s) && Enabled(s, a) && a.GetObject?
    ensures Ownership(Apply(s, a))
  {
    var b, x := Take(s.pool).0, WithProducer(a.t);
    PoolTakes(s.owner, s.pool, x);
    ProducerGains(s.owner, s.producers, a.t, Holding(b, a.rec));
    QueueElse(s.owner, s.queue.items, b, x);
    LoggerElse(s.owner, s.logger, b, x);
  }

  lemma PushRecordOwned(s: State, a: Action)
    requires Ownership(s) && Enabled(s, a) && a.PushRecord?
    ensures Ownership(Apply(s, a))
  {
    var b := s.producers[a.t].b;
    if !s.queue.Full() {
      PoolElse(s.owner, s.pool, b, InQueue);
      ProducerGives(s.owner, s.producers, a.t, InQueue);
      QueueGains(s.owner, s.queue.items, b);
      LoggerElse(s.owner, s.logger, b, InQueue);
    }
  }

  lemma PopRecordOwned(s: State, a: Action)
    requires Ownership(s) && Enabled(s, a) && a.PopRecord?
    ensures Ownership(Apply(s, a))
  {
    var items := s.queue.items;
    if items != [] {
      QueueGives(s.owner, items, WithLogger);
      if items[0].Filled? {
        var b := items[0].b;
        PoolElse(s.owner, s.pool, b, WithLogger);
        ProducersElse(s.owner, s.producers, b, WithLogger);
      }
    }
  }

  lemma ReturnObjectOwned(s: State, a: Action)
    requires Ownership(s) && Enabled(s, a) && a.ReturnObject?
    ensures Ownership(Apply(s, a))
  {
    var b := s.logger.b;
    assert b in LoggerHolds(s.logger);
    PoolGains(s.owner, s.pool, b);
    ProducersElse(s.owner, s.producers, b, InPool);
    QueueElse(s.owner, s.queue.items, b, InPool);
  }

  lemma FillBufferOwned(s: State, a: Action)
    requires Ownership(s) && Enabled(s, a) && a.FillBuffer?
    ensures Ownership(Apply(s, a))
  {
    assert forall t :: t in s.producers ==> Holds(Apply(s, a).producers[t]) == Holds(s.producers[t]);
  }

  lemma FreePoolOwned(s: State, a: Action)
    requires Ownership(s) && Enabled(s, a) && a.FreePool?
    ensures Ownership(Apply(s, a))
  {
    var owner := Apply(s, a).owner;
    assert forall b :: b in owner ==> b in s.owner && owner[b] == s.owner[b] != InPool;
    assert forall b :: b in s.owner && s.owner[b] != InPool ==> b in owner;
  }

  lemma OwnershipKept(s: State, a: Action)
    requires Ownership(s) && Enabled(s, a)
    ensures Ownership(Apply(s, a))
  {
    match a {
      case GetObject(_, _) => GetObjectOwned(s, a);
      case PushRecord(_, _) => PushRecordOwned(s, a);
      case PopRecord(_) => PopRecordOwned(s, a);
      case ReturnObject => ReturnObjectOwned(s, a);
      case PushPoison(_) => QueueGainsPoison(s.owner, s.queue.items);
      case FillBuffer(_) => FillBufferOwned(s, a);
      case FreePool => FreePoolOwned(s, a);
      case LogRecord => assert LoggerHolds(Apply(s, a).logger) == LoggerHolds(s.logger);
      case Drain => assert LoggerHolds(Apply(s, a).logger) == LoggerHolds(s.logger);
      case _ =>
    }
  }

  // ------------------------------------------------------------- contents

  /** The bytes a buffer would hand to the adapted sink. */
  function Text(heap: map<Id, B.Buf>, b: Id): Record
  {
    if b in heap && heap[b].Valid() then heap[b].Readable() else []
  }

  function Queued(heap: map<Id, B.Buf>, items: seq<Item>): seq<Record>
  {
    if items == [] then []
    else (if items[0].Filled? then [Text(heap, items[0].b)] else []) + Queued(heap, items[1..])
  }

  /** Popped by the log thread and not yet given to the adapted sink. */
  function InFlight(heap: map<Id, B.Buf>, logger: Logger): seq<Record>
  {
    if logger.Logging? then [Text(heap, logger.b)] else []
  }

  ghost predicate HeapOk(owner: map<Id, Owner>, heap: map<Id, B.Buf>)
  {
    && heap.Keys == owner.Keys
    && (forall b :: b in heap ==> heap[b].Valid() && heap[b].expand == EXPAND_SIZE)
    && (forall b :: b in owner && owner[b] == InPool ==> Text(heap, b) == [])
  }

  /** An unfilled buffer is empty; a filled one reads as the record, byte for byte. */
  ghost predicate ProducersHave(heap: map<Id, B.Buf>, ps: map<Tid, Producer>)
  {
    && (forall t :: t in ps && ps[t].Holding? ==> Text(heap, ps[t].b) == [] && Loggable(ps[t].rec))
    && (forall t :: t in ps && ps[t].Pushing? ==> Text(heap, ps[t].b) == ps[t].rec)
  }

  ghost predicate Contents(s: State)
  {
    && HeapOk(s.owner, s.heap) && ProducersHave(s.heap, s.producers)
    && (s.logger.Returning? ==> Text(s.heap, s.logger.b) == [])
    && s.pushed == s.received + (InFlight(s.heap, s.logger) + Queued(s.heap, s.queue.items))
  }

  lemma {:induction false} QueuedSnoc(heap: map<Id, B.Buf>, items: seq<Item>, x: Item)
    ensures Queued(heap, items + [x]) ==
      Queued(heap, items) + (if x.Filled? then [Text(heap, x.b)] else [])
  {
    if items == [] {
      assert [x][1..] == [];
      assert [] + [x] == [x];
      assert Queued(heap, [x][1..]) == [];
    } else {
      QueuedSnoc(heap, items[1..], x);
      assert (items + [x])[1..] == items[1..] + [x];
    }
  }

  lemma {:induction false} QueuedFrame(heap: map<Id, B.Buf>, heap': map<Id, B.Buf>, items: seq<Item>)
    requires forall i :: 0 <= i < |items| && items[i].Filled? ==> Text(heap, items[i].b) == Text(heap', items[i].b)
    ensures Queued(heap, items) == Queued(heap', items)
  {
    if items != [] { QueuedFrame(heap, heap', items[1..]); }
  }

  lemma TextUpdate(heap: map<Id, B.Buf>, b: Id, v: B.Buf, x: Id)
    requires v.Valid()
    ensures Text(heap[b := v], x) == if x == b then v.Readable() else Text(heap, x)
  {
  }

  /** Only the buffer `b` changed, and it is neither queued nor with the log thread. */
  lemma OthersKeepText(s: State, heap: map<Id, B.Buf>, b: Id)
    requires forall x :: x != b ==> Text(heap, x) == Text(s.heap, x)
    requires QueueOwns(s.owner, s.queue.items) && LoggerOwns(s.owner, s.logger)
    requires b in s.owner ==> s.owner[b] != InQueue && s.owner[b] != WithLogger
    ensures Queued(heap, s.queue.items) == Queued(s.heap, s.queue.items)
    ensures InFlight(heap, s.logger) == InFlight(s.heap, s.logger)
    ensures s.logger.Returning? ==> Text(heap, s.logger.b) == Text(s.heap, s.logger.b)
  {
    QueuedFrame(s.heap, heap, s.queue.items);
    assert b !in LoggerHolds(s.logger);
  }

  lemma ProducersUpdate(heap: map<Id, B.Buf>, heap': map<Id, B.Buf>, ps: map<Tid, Producer>, t: Tid, p: Producer)
    requires ProducersHave(heap, ps) && t in ps && !p.Idle?
    requires forall u :: u in ps && u != t && !ps[u].Idle? ==> Text(heap', ps[u].b) == Text(heap, ps[u].b)
    requires Text(heap', p.b) == (if p.Holding? then [] else p.rec) && Loggable(p.rec)
    ensures ProducersHave(heap', ps[t := p])
  {
  }

  lemma HeapUpdate(owner: map<Id, Owner>, heap: map<Id, B.Buf>, b: Id, v: B.Buf)
    requires HeapOk(owner, heap) && b in owner && owner[b] != InPool
    requires v.Valid() && v.expand == EXPAND_SIZE
    ensures HeapOk(owner, heap[b := v])
  {
    forall x { TextUpdate(heap, b, v, x); }
  }

  lemma HeapHandsOut(owner: map<Id, Owner>, heap: map<Id, B.Buf>, b: Id, x: Owner)
    requires HeapOk(owner, heap) && x != InPool
    ensures b in heap ==> HeapOk(owner[b := x], heap)
    ensures b !in heap ==> HeapOk(owner[b := x], heap[b := B.Fresh(INIT_SIZE, EXPAND_SIZE)])
  {
    forall y { TextUpdate(heap, b, B.Fresh(INIT_SIZE, EXPAND_SIZE), y); }
  }

  lemma GetObjectContents(s: State, a: Action)
    requires Ownership(s) && Contents(s) && Enabled(s, a) && a.GetObject?
    ensures Contents(Apply(s, a))
  {
    var heap := Apply(s, a).heap;
    var b := Take(s.pool).0;
    PoolTakes(s.owner, s.pool, WithProducer(a.t));
    HeapHandsOut(s.owner, s.heap, b, WithProducer(a.t));
    forall x ensures x != b ==> Text(heap, x) == Text(s.heap, x)
      ensures Text(heap, b) == []
    {
      TextUpdate(s.heap, b, B.Fresh(INIT_SIZE, EXPAND_SIZE), x);
      TextUpdate(s.heap, b, B.Fresh(INIT_SIZE, EXPAND_SIZE), b);
    }
    OthersKeepText(s, heap, b);
    ProducersUpdate(s.heap, heap, s.producers, a.t, Holding(b, a.rec));
  }

  /** Filling touches only the producer's own buffer. */
  lemma FillBufferContents(s: State, a: Action)
    requires Ownership(s) && Contents(s) && Enabled(s, a) && a.FillBuffer?
    ensures Contents(Apply(s, a))
  {
    hide B.WriteBytes, Queued, Q.Apply, J.Apply;
    var p := s.producers[a.t];
    var v := B.WriteBytes(s.heap[p.b], p.rec);
    var heap := s.heap[p.b := v];
    assert s.owner[p.b] == WithProducer(a.t);
    assert v.Readable() == p.rec by { assert Text(s.heap, p.b) == [] && [] + p.rec == p.rec; }
    forall x { TextUpdate(s.heap, p.b, v, x); }
    HeapUpdate(s.owner, s.heap, p.b, v);
    OthersKeepText(s, heap, p.b);
    ProducersUpdate(s.heap, heap, s.producers, a.t, Pushing(p.b, p.rec));
  }

  lemma PushRecordContents(s: State, a: Action)
    requires Ownership(s) && Contents(s) && Enabled(s, a) && a.PushRecord?
    ensures Contents(Apply(s, a))
  {
    var p := s.producers[a.t];
    if !s.queue.Full() {
      QueuedSnoc(s.heap, s.queue.items, Filled(p.b));
      var ahead := Queued(s.heap, s.queue.items);
      Regroup(InFlight(s.heap, s.logger), ahead, [p.rec]);
      Regroup(s.received, InFlight(s.heap, s.logger) + ahead, [p.rec]);
    }
  }

  lemma PopRecordContents(s: State, a: Action)
    requires Ownership(s) && Contents(s) && Enabled(s, a) && a.PopRecord?
    ensures Contents(Apply(s, a))
  {
    hide J.Apply, B.WriteBytes, B.Read, B.Fresh, Text;
    var items := s.queue.items;
    if items != [] {
      assert InFlight(s.heap, s.logger) == [];
      assert [] + Queued(s.heap, items) == Queued(s.heap, items);
      assert [] + Queued(s.heap, items[1..]) == Queued(s.heap, items[1..]);
    }
  }

  lemma LogRecordContents(s: State, a: Action)
    requires Ownership(s) && Contents(s) && Enabled(s, a) && a.LogRecord?
    ensures Contents(Apply(s, a))
  {
    var queued := Queued(s.heap, s.queue.items);
    Regroup(s.received, InFlight(s.heap, s.logger), queued);
    assert [] + queued == queued;
  }

  lemma DrainOthers(s: State, heap: map<Id, B.Buf>, b: Id, v: B.Buf)
    requires v.Valid() && heap == s.heap[b := v] && b in s.owner && s.owner[b] == WithLogger
    requires ProducersOwn(s.owner, s.producers) && QueueOwns(s.owner, s.queue.items) && ProducersHave(s.heap, s.producers)
    ensures ProducersHave(heap, s.producers)
    ensures Queued(heap, s.queue.items) == Queued(s.heap, s.queue.items)
  {
    forall x { TextUpdate(s.heap, b, v, x); }
    QueuedFrame(s.heap, heap, s.queue.items);
  }

  /** Draining touches only the log thread's own buffer. */
  lemma DrainContents(s: State, a: Action)
    requires Ownership(s) && Contents(s) && Enabled(s, a) && a.Drain?
    ensures Contents(Apply(s, a))
  {
    var b := s.logger.b;
    var v := B.Read(s.heap[b], s.heap[b].ReadableBytes());
    var heap := s.heap[b := v];
    assert b in LoggerHolds(s.logger) && s.owner[b] == WithLogger;
    assert v.Readable() == [];
    HeapUpdate(s.owner, s.heap, b, v);
    DrainOthers(s, heap, b, v);
  }

  lemma PushPoisonContents(s: State, a: Action)
    requires Contents(s) && Enabled(s, a) && a.PushPoison?
    ensures Contents(Apply(s, a))
  {
    QueuedSnoc(s.heap, s.queue.items, Poison);
    assert Queued(s.heap, s.queue.items) + [] == Queued(s.heap, s.queue.items);
  }

  lemma HeapShrinks(owner: map<Id, Owner>, heap: map<Id, B.Buf>, gone: set<Id>)
    requires HeapOk(owner, heap)
    ensures HeapOk(owner - gone, heap - gone)
    ensures forall x :: x !in gone ==> Text(heap - gone, x) == Text(heap, x)
  {
  }

  lemma FreePoolContents(s: State, a: Action)
    requires Ownership(s) && Contents(s) && Enabled(s, a) && a.FreePool?
    requires s.logger.Finished? && forall t :: t in s.producers ==> s.producers[t].Idle?
    ensures Contents(Apply(s, a))
  {
    hide HeapOk, Queued, Text, PoolOwns, QueueOwns, LoggerOwns, ProducersOwn;
    var gone := set b | b in s.pool.reused;
    HeapShrinks(s.owner, s.heap, gone);
    QueueSurvives(s.owner, s.heap, s.pool, s.queue.items, gone);
    var s' := Apply(s, a);
    assert s' == s.(freed := s'.freed, pool := s'.pool, destroyer := FreeingQueue, heap := s.heap - gone, owner := s.owner - gone);
  }

  /** What is queued is not in the pool. */
  lemma QueueSurvives(owner: map<Id, Owner>, heap: map<Id, B.Buf>, pool: Pool, items: seq<Item>, gone: set<Id>)
    requires PoolOwns(owner, pool) && QueueOwns(owner, items) && gone == set b | b in pool.reused
    ensures Queued(heap - gone, items) == Queued(heap, items)
  {
    QueuedFrame(heap, heap - gone, items);
  }

  lemma ContentsKept(s: State, a: Action)
    requires Ownership(s) && Contents(s) && Enabled(s, a)
    requires a.FreePool? ==> s.logger.Finished? && forall t :: t in s.producers ==> s.producers[t].Idle?
    ensures Contents(Apply(s, a))
  {
    hide Apply, Enabled, Contents, Ownership;
    match a {
      case GetObject(_, _) => GetObjectContents(s, a);
      case FillBuffer(_) => FillBufferContents(s, a);
      case PushRecord(_, _) => PushRecordContents(s, a);
      case PopRecord(_) => PopRecordContents(s, a);
      case LogRecord => LogRecordContents(s, a);
      case Drain => DrainContents(s, a);
      case PushPoison(_) => PushPoisonContents(s, a);
      case FreePool => FreePoolContents(s, a);
      case ReturnObject => ReturnObjectContents(s, a);
      case _ => OtherContents(s, a);
    }
  }

  /** A step that touches neither the bytes of a buffer nor the queued items. */
  lemma OtherContents(s: State, a: Action)
    requires Ownership(s) && Contents(s) && Enabled(s, a)
    requires a.BeginDestroy? || a.Join? || a.DeleteSink? || a.FreeQueue? || Spurious(a)
    ensures Contents(Apply(s, a))
  {
    hide J.Apply, J.Enabled, B.WriteBytes, B.Read, B.Fresh, HeapOk, ProducersHave, Queued, Text;
  }

  lemma ReturnObjectContents(s: State, a: Action)
    requires Ownership(s) && Contents(s) && Enabled(s, a) && a.ReturnObject?
    ensures Contents(Apply(s, a))
  {
    hide Q.Apply, J.Apply, B.WriteBytes, B.Read, B.Fresh, Queued, Text;
    assert s.logger.b in LoggerHolds(s.logger);
  }
}
