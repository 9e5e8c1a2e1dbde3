/** The event loop's device table: which device is registered with which epoller, and the
    dispatch of a batch of events while callbacks attach and detach devices. The kernel's
    interest list is the set `registered`. */
module Epollers {
  import opened Basics

  const FIRST_EVENT_SLOTS: nat := 32

  class IODevice {
    var ioService: Epoller?

    constructor ()
      ensures ioService == null
    {
      ioService := null;
    }

    /** `granted` is the kernel's word on an addition that is not a duplicate. */
    method AttachIOService(service: Epoller, granted: bool, ghost devices: set<IODevice>, ghost services: set<Epoller>)
      returns (ok: bool)
      requires Consistent(devices, services) && this in devices && service in services
      modifies this`ioService, services`registered, services`removed, services`history
      ensures Consistent(devices, services) && RemovalsNoted(services)
      ensures ok == granted && ioService == if ok then service else null
      ensures forall s | s in services :: s.history == old(s.history)
                + (if old(ioService) == s then [Deleted(this)] else [])
                + (if granted && service == s then [Added(this)] else [])
      ensures forall s :: s in services ==> s.eventSlots == old(s.eventSlots)
      ensures old(ioService) == null ==> forall s :: s in services ==> s.removed == old(s.removed)
      ensures forall d :: d in devices && d != this ==> forall s :: s in services ==>
                (d in s.registered <==> d in old(s.registered))
    {
      hide RegisteredBy, RemovedBy;
      if ioService != null { DetachIOService(devices, services); }
      ok := Register(service, granted, devices, services);
    }

    /** The second half of `attachIOService`, for a device registered nowhere. */
    method Register(service: Epoller, granted: bool, ghost devices: set<IODevice>, ghost services: set<Epoller>)
      returns (ok: bool)
      requires Consistent(devices, services) && this in devices && service in services && ioService == null
      modifies this`ioService, service`registered, service`history
      ensures Consistent(devices, services)
      ensures ok == granted && ioService == if ok then service else null
      ensures service.history == old(service.history) + (if granted then [Added(this)] else [])
      ensures service.registered == old(service.registered) + (if granted then {this} else {})
    {
      hide RegisteredBy, RemovedBy;
      ok := service.Add(this, granted);
      if !ok { return; }
      ioService := service;
    }

    method DetachIOService(ghost devices: set<IODevice>, ghost services: set<Epoller>)
      requires Consistent(devices, services) && this in devices
      modifies this`ioService, services`registered, services`removed, services`history
      ensures Consistent(devices, services) && RemovalsNoted(services)
      ensures ioService == null
      ensures forall s | s in services :: s.history == old(s.history)
                + (if old(ioService) == s then [Deleted(this)] else [])
      ensures forall s :: s in services ==> s.eventSlots == old(s.eventSlots)
      ensures old(ioService) == null ==> forall s :: s in services ==> s.removed == old(s.removed)
      ensures forall s :: s in services ==> s.registered == old(s.registered) - {this}
    {
      if ioService == null { return; }
      var _ := ioService.Del(this);
      ioService := null;
    }
  }

  class Epoller {
    var registered: set<IODevice>
    var removed: set<IODevice>
    var eventSlots: nat
    ghost var history: seq<Change>

    /** Both device sets are what the changes so far make of them. */
    ghost predicate Traced()
      reads this
    {
      registered == RegisteredBy(history) && removed == RemovedBy(history)
    }

    constructor ()
      ensures registered == {} && removed == {} && eventSlots == FIRST_EVENT_SLOTS
      ensures history == [] && Traced()
    {
      registered, removed, eventSlots, history := {}, {}, FIRST_EVENT_SLOTS, [];
    }

    /** EPOLL_CTL_ADD fails for a device already there, or when the kernel refuses. */
    method Add(d: IODevice, granted: bool) returns (ok: bool)
      requires Traced()
      modifies this`registered, this`history
      ensures ok <==> granted && d !in old(registered)
      ensures registered == if ok then old(registered) + {d} else old(registered)
      ensures Traced() && history == if ok then old(history) + [Added(d)] else old(history)
    {
      ok := granted && d !in registered;
      if ok { registered, history := registered + {d}, history + [Added(d)]; }
    }

    /** EPOLL_CTL_DEL fails for a device that is not there; otherwise the device is barred
        from the rest of the current batch. */
    method Del(d: IODevice) returns (ok: bool)
      requires Traced()
      modifies this`registered, this`removed, this`history
      ensures ok <==> d in old(registered)
      ensures registered == old(registered) - {d}
      ensures removed == if ok then old(removed) + {d} else old(removed)
      ensures Traced() && history == if ok then old(history) + [Deleted(d)] else old(history)
    {
      if d !in registered { return false; }
      registered := registered - {d};
      removed := removed + {d};
      history := history + [Deleted(d)];
      return true;
    }

    predicate CheckIODeviceExist(d: IODevice)
      reads this
    {
      d !in removed
    }

    /** One round of `doEvent`. `batch` is what the kernel reported; the n-th callback runs
        `script(n)`, any attachments and detachments at all. The log shows every reported
        condition in order: called or skipped, and whether the device was registered then;
        `at` is how much of the epoller's history had happened by then. */
    method DoEvent(batch: seq<Event>, script: nat -> seq<Op>, ghost devices: set<IODevice>, ghost services: set<Epoller>)
      returns (log: seq<Entry>, ghost at: seq<nat>)
      requires this in services && Consistent(devices, services)
      requires forall i :: 0 <= i < |batch| ==> batch[i].dev in registered
      requires |batch| <= eventSlots
      requires forall n: nat, i :: 0 <= i < |script(n)| ==> script(n)[i].Within(devices, services)
      modifies devices, services
      ensures Consistent(devices, services)
      ensures |log| == |Reported(batch)|
      ensures forall i :: 0 <= i < |log| ==> (log[i].dev, log[i].kind) == Reported(batch)[i]
      ensures forall i :: 0 <= i < |log| && log[i].called ==> log[i].registered
      ensures |at| == |log| && (forall i :: 0 <= i < |at| ==> |old(history)| <= at[i] < |history|)
      ensures forall i :: 0 <= i < |log| ==>
                (log[i].called <==> !DeletedSince(history[..at[i]], log[i].dev))
                && (log[i].registered <==> LastAdded(history[..at[i]], log[i].dev))
      ensures ServicesOf(devices) == After(old(ServicesOf(devices)), Ran(script, Called(log)))
      ensures forall d :: d in devices ==> Settled(Ran(script, Called(log)), d, old(d.ioService), d.ioService)
      ensures forall s | s in services :: s.history == old(s.history)
                + Changes(old(ServicesOf(devices)), Ran(script, Called(log)), s) + (if s == this then [RoundEnd] else [])
      ensures forall i :: 0 <= i < |at| ==>
                at[i] == |old(history)| + |Changes(old(ServicesOf(devices)), Ran(script, Called(log[..i])), this)|
      ensures removed == {}
      ensures eventSlots == if |batch| == old(eventSlots) then 2 * old(eventSlots) else old(eventSlots)
    {
      hide RegisteredBy, RemovedBy, DeletedSince, LastAdded, EntryProper, Consistent, Kinds, After, Changes, Settled,
        ServicesOf, HistoriesOf, Did, Ran, Called, LogOk;
      ghost var w, h := ServicesOf(devices), HistoriesOf(services);
      LogStarts(script, this, w, h);
      log, at := [], [];
      var i, calls: nat := 0, 0;
      while i < |batch|
        invariant 0 <= i <= |batch| && Consistent(devices, services)
        invariant forall j :: i <= j < |batch| ==> batch[j].dev in registered || batch[j].dev in removed
        invariant Keys(log) == Reported(batch[..i]) && eventSlots == old(eventSlots) && calls == Called(log)
        invariant LogOk(log, at, script, this, w, h, ServicesOf(devices), HistoriesOf(services))
      {
        var todo := Kinds(batch[i]);
        ghost var before := log;
        var k := 0;
        while k < |todo|
          invariant 0 <= k <= |todo| && Consistent(devices, services)
          invariant forall j :: i <= j < |batch| ==> batch[j].dev in registered || batch[j].dev in removed
          invariant Keys(log) == Keys(before) + Tag(batch[i].dev, todo[..k])
          invariant eventSlots == old(eventSlots) && calls == Called(log)
          invariant LogOk(log, at, script, this, w, h, ServicesOf(devices), HistoriesOf(services))
        {
          ghost var was, w1, h1 := history, ServicesOf(devices), HistoriesOf(services);
          var entry := Handle(batch[i].dev, todo[k], script(calls), devices, services);
          LogSnoc(log, at, script, this, w, h, w1, h1, entry, ServicesOf(devices), HistoriesOf(services));
          KeysSnoc(log, entry);
          TagSnoc(batch[i].dev, todo, k);
          log, at := log + [entry], at + [|was|];
          if entry.called { calls := calls + 1; }
          k := k + 1;
        }
        assert todo[..k] == todo;
        ReportedSnoc(batch, i);
        i := i + 1;
      }
      assert batch[..i] == batch;
      LogMeans(log, at, script, this, w, h, ServicesOf(devices), HistoriesOf(services));
      EndRound(|batch|, devices, services);
    }

    /** The end of `doEvent`: the removed list is cleared, a filled event buffer doubles. */
    method EndRound(eventCount: nat, ghost devices: set<IODevice>, ghost services: set<Epoller>)
      requires this in services && Consistent(devices, services)
      modifies this
      ensures Consistent(devices, services)
      ensures removed == {} && history == old(history) + [RoundEnd]
      ensures ServicesOf(devices) == old(ServicesOf(devices))
      ensures forall s :: s in services && s != this ==> s.history == old(s.history)
      ensures eventSlots == if eventCount >= old(eventSlots) then 2 * old(eventSlots) else old(eventSlots)
    {
      hide RegisteredBy, RemovedBy;
      RoundEnds(history);
      removed, history := {}, history + [RoundEnd];
      if eventCount >= eventSlots { eventSlots := eventSlots * 2; }
    }

    /** One reported condition: the guard, and the callback if it lets it through. */
    method Handle(d: IODevice, kind: Kind, ops: seq<Op>, ghost devices: set<IODevice>, ghost services: set<Epoller>)
      returns (entry: Entry)
      requires this in services && Consistent(devices, services) && (d in registered || d in removed)
      requires forall i :: 0 <= i < |ops| ==> ops[i].Within(devices, services)
      modifies devices, services
      ensures Consistent(devices, services) && RemovalsNoted(services) && eventSlots == old(eventSlots)
      ensures entry.dev == d && entry.kind == kind && EntryProper(entry, old(history))
      ensures var done := if entry.called then ops else [];
        && Did(old(ServicesOf(devices)), old(HistoriesOf(services)), done, ServicesOf(devices), HistoriesOf(services))
        && (forall x :: x in devices ==> Settled(done, x, old(x.ioService), x.ioService))
    {
      hide RegisteredBy, RemovedBy, Settled;
      AllSettled(ServicesOf(devices), []);
      var go := CheckIODeviceExist(d);
      entry := Entry(d, kind, go, d in registered);
      if go { Perform(ops, devices, services); }
    }

    /** The body of a callback: every device ends up as the last operation on it leaves it. */
    method Perform(ops: seq<Op>, ghost devices: set<IODevice>, ghost services: set<Epoller>)
      requires Consistent(devices, services)
      requires forall i :: 0 <= i < |ops| ==> ops[i].Within(devices, services)
      modifies devices, services
      ensures Consistent(devices, services) && RemovalsNoted(services)
      ensures forall s :: s in services ==> s.eventSlots == old(s.eventSlots)
      ensures Did(old(ServicesOf(devices)), old(HistoriesOf(services)), ops, ServicesOf(devices), HistoriesOf(services))
      ensures forall d :: d in devices ==> Settled(ops, d, old(d.ioService), d.ioService)
    {
      hide Settled, RegisteredBy, RemovedBy, Did, ServicesOf, HistoriesOf, Consistent;
      ghost var w, h := ServicesOf(devices), HistoriesOf(services);
      DidNothing(w, h);
      var i := 0;
      while i < |ops|
        invariant 0 <= i <= |ops| && Consistent(devices, services) && RemovalsNoted(services)
        invariant forall s :: s in services ==> s.eventSlots == old(s.eventSlots)
        invariant Did(w, h, ops[..i], ServicesOf(devices), HistoriesOf(services))
      {
        ghost var w1, h1 := ServicesOf(devices), HistoriesOf(services);
        Do(ops[i], devices, services);
        DidMore(w, h, ops[..i], w1, h1, [ops[i]], ServicesOf(devices), HistoriesOf(services));
        assert ops[..i] + [ops[i]] == ops[..i + 1];
        i := i + 1;
      }
      assert ops[..i] == ops;
      DidMeans(w, h, ops, ServicesOf(devices), HistoriesOf(services));
      AllSettled(w, ops);
    }

    method Do(op: Op, ghost devices: set<IODevice>, ghost services: set<Epoller>)
      requires Consistent(devices, services) && op.Within(devices, services)
      modifies devices, services
      ensures Consistent(devices, services) && RemovalsNoted(services)
      ensures forall s :: s in services ==> s.eventSlots == old(s.eventSlots)
      ensures Did(old(ServicesOf(devices)), old(HistoriesOf(services)), [op], ServicesOf(devices), HistoriesOf(services))
    {
      hide RegisteredBy, RemovedBy, Did, Consistent;
      ghost var w, h := ServicesOf(devices), HistoriesOf(services);
      match op {
        case Attach(d, s, granted) => var _ := d.AttachIOService(s, granted, devices, services);
        case Detach(d) => d.DetachIOService(devices, services);
      }
      DidOne(w, h, op, ServicesOf(devices), HistoriesOf(services));
    }
  }

  // ----------------------------------------------- what a callback's body does

  ghost function ServicesOf(devices: set<IODevice>): (w: map<IODevice, Epoller?>)
    reads devices
    ensures w.Keys == devices && forall d :: d in devices ==> w[d] == d.ioService
  {
    map d | d in devices :: d.ioService
  }

  ghost function HistoriesOf(services: set<Epoller>): (h: map<Epoller, seq<Change>>)
    reads services
    ensures h.Keys == services && forall s :: s in services ==> h[s] == s.history
  {
    map s | s in services :: s.history
  }

  function OpResult(op: Op): Epoller?
  {
    if op.Attach? && op.granted then op.s else null
  }

  function After(w: map<IODevice, Epoller?>, ops: seq<Op>): map<IODevice, Epoller?>
  {
    if ops == [] then w
    else After(w, ops[..|ops| - 1])[ops[|ops| - 1].d := OpResult(ops[|ops| - 1])]
  }

  /** What one operation adds to the history of `s`. */
  function OpChanges(w: map<IODevice, Epoller?>, op: Op, s: Epoller): seq<Change>
  {
    (if op.d in w && w[op.d] == s then [Deleted(op.d)] else [])
    + (if op.Attach? && op.granted && op.s == s then [Added(op.d)] else [])
  }

  function Changes(w: map<IODevice, Epoller?>, ops: seq<Op>, s: Epoller): seq<Change>
  {
    if ops == [] then []
    else
      var front := ops[..|ops| - 1];
      Changes(w, front, s) + OpChanges(After(w, front), ops[|ops| - 1], s)
  }

  ghost predicate LastOn(ops: seq<Op>, d: IODevice, j: nat)
  {
    j < |ops| && ops[j].d == d && forall k :: j < k < |ops| ==> ops[k].d != d
  }

  /** The last operation on `d`, if there is one, decides: attached where that was granted,
      detached otherwise. Without one nothing changes. */
  ghost predicate Settled(ops: seq<Op>, d: IODevice, before: Epoller?, after: Epoller?)
  {
    && ((forall j :: 0 <= j < |ops| ==> ops[j].d != d) ==> after == before)
    && (forall j: nat :: LastOn(ops, d, j) ==>
          after == match ops[j]
                   case Attach(_, s, granted) => if granted then s else null
                   case Detach(_) => null)
  }

  lemma {:induction false} AfterNone(w: map<IODevice, Epoller?>, ops: seq<Op>, d: IODevice)
    requires d in w && forall j :: 0 <= j < |ops| ==> ops[j].d != d
    ensures d in After(w, ops) && After(w, ops)[d] == w[d]
    decreases |ops|
  {
    if ops != [] { AfterNone(w, ops[..|ops| - 1], d); }
  }

  lemma {:induction false} AfterLast(w: map<IODevice, Epoller?>, ops: seq<Op>, d: IODevice, j: nat)
    requires LastOn(ops, d, j)
    ensures d in After(w, ops) && After(w, ops)[d] == OpResult(ops[j])
    decreases |ops|
  {
    if j < |ops| - 1 { AfterLast(w, ops[..|ops| - 1], d, j); }
  }

  lemma {:induction false} KeepsDevices(w: map<IODevice, Epoller?>, ops: seq<Op>)
    ensures w.Keys <= After(w, ops).Keys
    decreases |ops|
  {
    if ops != [] { KeepsDevices(w, ops[..|ops| - 1]); }
  }

  lemma AfterSettled(w: map<IODevice, Epoller?>, ops: seq<Op>, d: IODevice)
    requires d in w
    ensures d in After(w, ops) && Settled(ops, d, w[d], After(w, ops)[d])
  {
    hide After;
    KeepsDevices(w, ops);
    if forall j :: 0 <= j < |ops| ==> ops[j].d != d { AfterNone(w, ops, d); }
    forall j: nat | LastOn(ops, d, j) ensures After(w, ops)[d] == OpResult(ops[j]) { AfterLast(w, ops, d, j); }
  }

  lemma AllSettled(w: map<IODevice, Epoller?>, ops: seq<Op>)
    ensures forall d :: d in w ==> d in After(w, ops) && Settled(ops, d, w[d], After(w, ops)[d])
  {
    forall d | d in w ensures d in After(w, ops) && Settled(ops, d, w[d], After(w, ops)[d]) {
      AfterSettled(w, ops, d);
    }
  }

  /** From devices `w` and histories `h`, exactly the operations `ops` were performed. */
  ghost predicate Did(w: map<IODevice, Epoller?>, h: map<Epoller, seq<Change>>, ops: seq<Op>,
                      w': map<IODevice, Epoller?>, h': map<Epoller, seq<Change>>)
  {
    && w' == After(w, ops) && h'.Keys == h.Keys
    && (forall s :: s in h ==> h'[s] == h[s] + Changes(w, ops, s))
  }

  lemma DidNothing(w: map<IODevice, Epoller?>, h: map<Epoller, seq<Change>>)
    ensures Did(w, h, [], w, h)
  {
  }

  lemma DidMeans(w: map<IODevice, Epoller?>, h: map<Epoller, seq<Change>>, ops: seq<Op>,
                 w': map<IODevice, Epoller?>, h': map<Epoller, seq<Change>>)
    requires Did(w, h, ops, w', h')
    ensures w' == After(w, ops) && h'.Keys == h.Keys
    ensures forall s :: s in h ==> h'[s] == h[s] + Changes(w, ops, s)
  {
  }

  lemma DidOne(w: map<IODevice, Epoller?>, h: map<Epoller, seq<Change>>, op: Op,
               w': map<IODevice, Epoller?>, h': map<Epoller, seq<Change>>)
    requires op.d in w && w' == w[op.d := if op.Attach? && op.granted then op.s else null] && h'.Keys == h.Keys
    requires forall s | s in h ::
      h'[s] == h[s] + (if w[op.d] == s then [Deleted(op.d)] else [])
               + (if op.Attach? && op.granted && op.s == s then [Added(op.d)] else [])
    ensures Did(w, h, [op], w', h')
  {
    assert [op][..0] == [];
    assert After(w, [op]) == After(w, [op][..0])[op.d := OpResult(op)];
    forall s | s in h ensures h'[s] == h[s] + Changes(w, [op], s) {
      assert Changes(w, [op], s) == Changes(w, [op][..0], s) + OpChanges(After(w, [op][..0]), op, s);
    }
  }

  lemma DidMore(w: map<IODevice, Epoller?>, h: map<Epoller, seq<Change>>, ops: seq<Op>,
                w1: map<IODevice, Epoller?>, h1: map<Epoller, seq<Change>>, more: seq<Op>,
                w2: map<IODevice, Epoller?>, h2: map<Epoller, seq<Change>>)
    requires Did(w, h, ops, w1, h1) && Did(w1, h1, more, w2, h2)
    ensures Did(w, h, ops + more, w2, h2)
  {
    hide After, Changes;
    AfterComposed(w, ops, more);
    forall s | s in h ensures h2[s] == h[s] + Changes(w, ops + more, s) { ChangesComposed(w, ops, more, s); }
  }

  lemma {:induction false} AfterComposed(w: map<IODevice, Epoller?>, ops: seq<Op>, more: seq<Op>)
    ensures After(w, ops + more) == After(After(w, ops), more)
    decreases |more|
  {
    if more == [] {
      assert ops + more == ops;
    } else {
      AfterComposed(w, ops, more[..|more| - 1]);
      assert (ops + more)[..|ops + more| - 1] == ops + more[..|more| - 1];
    }
  }

  lemma LastChanges(w: map<IODevice, Epoller?>, ops: seq<Op>, op: Op, s: Epoller)
    ensures Changes(w, ops + [op], s) == Changes(w, ops, s) + OpChanges(After(w, ops), op, s)
  {
    hide OpChanges, After;
    assert (ops + [op])[..|ops|] == ops;
  }

  lemma {:induction false} ChangesComposed(w: map<IODevice, Epoller?>, ops: seq<Op>, more: seq<Op>, s: Epoller)
    ensures Changes(w, ops + more, s) == Changes(w, ops, s) + Changes(After(w, ops), more, s)
    decreases |more|
  {
    if more == [] {
      assert ops + more == ops;
    } else {
      hide OpChanges, After, Changes;
      var front, op := more[..|more| - 1], more[|more| - 1];
      ChangesComposed(w, ops, front, s);
      AfterComposed(w, ops, front);
      LastChanges(w, ops + front, op, s);
      LastChanges(After(w, ops), front, op, s);
      assert more == front + [op] && ops + more == (ops + front) + [op];
      Regroup(Changes(w, ops, s), Changes(After(w, ops), front, s), OpChanges(After(w, ops + front), op, s));
    }
  }

  /** The bodies of the first `n` callbacks, one after the other. */
  function Ran(script: nat -> seq<Op>, n: nat): seq<Op>
  {
    if n == 0 then [] else Ran(script, n - 1) + script(n - 1)
  }

  /** Callbacks invoked. */
  function Called(log: seq<Entry>): nat
  {
    if log == [] then 0 else Called(log[..|log| - 1]) + (if log[|log| - 1].called then 1 else 0)
  }

  lemma RanSnoc(w: map<IODevice, Epoller?>, h: map<Epoller, seq<Change>>, script: nat -> seq<Op>, n: nat,
                w1: map<IODevice, Epoller?>, h1: map<Epoller, seq<Change>>, called: bool,
                w2: map<IODevice, Epoller?>, h2: map<Epoller, seq<Change>>)
    requires Did(w, h, Ran(script, n), w1, h1) && Did(w1, h1, if called then script(n) else [], w2, h2)
    ensures Did(w, h, Ran(script, if called then n + 1 else n), w2, h2)
  {
    hide Did;
    DidMore(w, h, Ran(script, n), w1, h1, if called then script(n) else [], w2, h2);
    assert Ran(script, n) + [] == Ran(script, n);
  }

  /** Each entry stands where the callbacks before it left the history. */
  ghost predicate Placed(log: seq<Entry>, at: seq<nat>, start: nat, w: map<IODevice, Epoller?>,
                         script: nat -> seq<Op>, s: Epoller)
  {
    && |at| == |log|
    && (forall i :: 0 <= i < |at| ==> at[i] == start + |Changes(w, Ran(script, Called(log[..i])), s)|)
  }

  lemma PlacedSnoc(log: seq<Entry>, at: seq<nat>, start: nat, w: map<IODevice, Epoller?>,
                   script: nat -> seq<Op>, s: Epoller, e: Entry)
    requires Placed(log, at, start, w, script, s)
    ensures Placed(log + [e], at + [start + |Changes(w, Ran(script, Called(log)), s)|], start, w, script, s)
    ensures Called(log + [e]) == Called(log) + (if e.called then 1 else 0)
  {
    hide Changes, Ran;
    assert (log + [e])[..|log|] == log;
    assert forall i :: 0 <= i < |log| ==> (log + [e])[..i] == log[..i];
  }

  /** The log of a round so far, against what the callbacks have done so far. */
  ghost predicate LogOk(log: seq<Entry>, at: seq<nat>, script: nat -> seq<Op>, s: Epoller,
                        w: map<IODevice, Epoller?>, h: map<Epoller, seq<Change>>,
                        w1: map<IODevice, Epoller?>, h1: map<Epoller, seq<Change>>)
  {
    && s in h && s in h1
    && Proper(log, at, |h[s]|, h1[s]) && Placed(log, at, |h[s]|, w, script, s)
    && Did(w, h, Ran(script, Called(log)), w1, h1)
  }

  lemma LogStarts(script: nat -> seq<Op>, s: Epoller, w: map<IODevice, Epoller?>, h: map<Epoller, seq<Change>>)
    requires s in h
    ensures Called([]) == 0 && LogOk([], [], script, s, w, h, w, h)
  {
  }

  lemma LogSnoc(log: seq<Entry>, at: seq<nat>, script: nat -> seq<Op>, s: Epoller,
                w: map<IODevice, Epoller?>, h: map<Epoller, seq<Change>>,
                w1: map<IODevice, Epoller?>, h1: map<Epoller, seq<Change>>, e: Entry,
                w2: map<IODevice, Epoller?>, h2: map<Epoller, seq<Change>>)
    requires LogOk(log, at, script, s, w, h, w1, h1) && EntryProper(e, h1[s])
    requires Did(w1, h1, if e.called then script(Called(log)) else [], w2, h2)
    ensures LogOk(log + [e], at + [|h1[s]|], script, s, w, h, w2, h2)
    ensures Called(log + [e]) == Called(log) + (if e.called then 1 else 0)
  {
    hide EntryProper, Did, Placed, Proper, Changes, After, Ran, Called;
    DidMeans(w, h, Ran(script, Called(log)), w1, h1);
    DidMeans(w1, h1, if e.called then script(Called(log)) else [], w2, h2);
    RanSnoc(w, h, script, Called(log), w1, h1, e.called, w2, h2);
    ProperSnoc(log, at, |h[s]|, h1[s], e);
    ProperLater(log + [e], at + [|h1[s]|], |h[s]|, h1[s], h2[s]);
    PlacedSnoc(log, at, |h[s]|, w, script, s, e);
  }

  /** What such a log says in the end. */
  lemma LogMeans(log: seq<Entry>, at: seq<nat>, script: nat -> seq<Op>, s: Epoller,
                 w: map<IODevice, Epoller?>, h: map<Epoller, seq<Change>>,
                 w1: map<IODevice, Epoller?>, h1: map<Epoller, seq<Change>>)
    requires LogOk(log, at, script, s, w, h, w1, h1)
    ensures s in h && s in h1 && |at| == |log| && h1.Keys == h.Keys && w1 == After(w, Ran(script, Called(log)))
    ensures forall x :: x in h ==> h1[x] == h[x] + Changes(w, Ran(script, Called(log)), x)
    ensures forall d :: d in w ==> d in w1 && Settled(Ran(script, Called(log)), d, w[d], w1[d])
    ensures forall i :: 0 <= i < |at| ==>
              && |h[s]| <= at[i] <= |h1[s]|
              && at[i] == |h[s]| + |Changes(w, Ran(script, Called(log[..i])), s)|
              && (log[i].called <==> !DeletedSince((h1[s] + [RoundEnd])[..at[i]], log[i].dev))
              && (log[i].registered <==> LastAdded((h1[s] + [RoundEnd])[..at[i]], log[i].dev))
              && (log[i].called ==> log[i].registered)
  {
    hide Settled, After, Changes, DeletedSince, LastAdded, EntryProper;
    AllSettled(w, Ran(script, Called(log)));
    ProperMeans(log, at, |h[s]|, h1[s], h1[s] + [RoundEnd]);
  }

  /** A device is registered with exactly the service its `io_service_` names. */
  ghost predicate Consistent(devices: set<IODevice>, services: set<Epoller>)
    reads devices, services
  {
    && (forall d, s :: d in devices && s in services ==> (d in s.registered <==> d.ioService == s))
    && (forall d :: d in devices && d.ioService != null ==> d.ioService in services)
    && (forall s :: s in services ==> s.registered <= devices && s.Traced())
  }

  /** Whoever has left an epoller is barred from its current batch. */
  twostate predicate RemovalsNoted(services: set<Epoller>)
    reads services
  {
    forall s :: s in services ==>
      && old(s.removed) <= s.removed && old(s.history) <= s.history
      && (forall d :: d in old(s.registered) ==> d in s.registered || d in s.removed)
  }

  datatype Op = Attach(d: IODevice, s: Epoller, granted: bool) | Detach(d: IODevice) {
    ghost predicate Within(devices: set<IODevice>, services: set<Epoller>) {
      d in devices && (Attach? ==> s in services)
    }
  }

  datatype Kind = Writable | Readable | Failed

  datatype Event = Event(dev: IODevice, out: bool, in_: bool, err: bool)

  datatype Entry = Entry(dev: IODevice, kind: Kind, called: bool, registered: bool)

  // ------------------------------------------------ the history of an epoller

  /** A successful `add`, a successful `del`, and the end of a round of `doEvent`. */
  datatype Change = Added(d: IODevice) | Deleted(d: IODevice) | RoundEnd

  function RegisteredBy(h: seq<Change>): set<IODevice>
  {
    if h == [] then {}
    else
      var before := RegisteredBy(h[..|h| - 1]);
      match h[|h| - 1]
      case Added(d) => before + {d}
      case Deleted(d) => before - {d}
      case RoundEnd => before
  }

  function RemovedBy(h: seq<Change>): set<IODevice>
  {
    if h == [] then {}
    else
      match h[|h| - 1]
      case Added(_) => RemovedBy(h[..|h| - 1])
      case Deleted(d) => RemovedBy(h[..|h| - 1]) + {d}
      case RoundEnd => {}
  }

  lemma RoundEnds(h: seq<Change>)
    ensures RegisteredBy(h + [RoundEnd]) == RegisteredBy(h) && RemovedBy(h + [RoundEnd]) == {}
  {
    assert (h + [RoundEnd])[..|h|] == h;
  }

  /** Deleted at `j`, and no round has ended since. */
  ghost predicate DeletedAt(h: seq<Change>, d: IODevice, j: nat)
  {
    j < |h| && h[j] == Deleted(d) && forall k :: j < k < |h| ==> h[k] != RoundEnd
  }

  ghost predicate DeletedSince(h: seq<Change>, d: IODevice) { exists j :: DeletedAt(h, d, j) }

  /** Added at `j`, and not deleted since. */
  ghost predicate AddedAt(h: seq<Change>, d: IODevice, j: nat)
  {
    j < |h| && h[j] == Added(d) && forall k :: j < k < |h| ==> h[k] != Deleted(d)
  }

  ghost predicate LastAdded(h: seq<Change>, d: IODevice) { exists j :: AddedAt(h, d, j) }

  /** The removed list names exactly the devices deleted since a round last ended. */
  lemma {:induction false} RemovedMeans(h: seq<Change>, d: IODevice)
    ensures d in RemovedBy(h) <==> DeletedSince(h, d)
    decreases |h|
  {
    if h != [] {
      var n := |h| - 1;
      RemovedMeans(h[..n], d);
      assert DeletedAt(h, d, n) <==> h[n] == Deleted(d);
      assert forall j: nat :: j < n ==> (DeletedAt(h, d, j) <==> DeletedAt(h[..n], d, j) && h[n] != RoundEnd);
    }
  }

  /** The interest list names exactly the devices last added rather than deleted. */
  lemma {:induction false} RegisteredMeans(h: seq<Change>, d: IODevice)
    ensures d in RegisteredBy(h) <==> LastAdded(h, d)
    decreases |h|
  {
    if h != [] {
      var n := |h| - 1;
      RegisteredMeans(h[..n], d);
      assert AddedAt(h, d, n) <==> h[n] == Added(d);
      assert forall j: nat :: j < n ==> (AddedAt(h, d, j) <==> AddedAt(h[..n], d, j) && h[n] != Deleted(d));
    }
  }

  /** The devices `doEvent` skips although they are registered: those deleted and added again
      within one round, or between two. */
  lemma SkippedThoughRegistered(h: seq<Change>, d: IODevice)
    ensures d in RegisteredBy(h) && d in RemovedBy(h) <==>
      exists j, k :: DeletedAt(h, d, j) && AddedAt(h, d, k) && j < k
  {
    RemovedMeans(h, d);
    RegisteredMeans(h, d);
  }

  /** The log so far is right about the history so far. */
  ghost predicate Proper(log: seq<Entry>, at: seq<nat>, start: nat, h: seq<Change>)
  {
    && |at| == |log|
    && (forall i :: 0 <= i < |log| ==> start <= at[i] <= |h| && EntryProper(log[i], h[..at[i]]))
  }

  predicate EntryProper(e: Entry, h: seq<Change>)
  {
    && (e.called <==> e.dev !in RemovedBy(h)) && (e.registered <==> e.dev in RegisteredBy(h))
    && (e.called ==> e.registered)
  }

  lemma ProperSnoc(log: seq<Entry>, at: seq<nat>, start: nat, h: seq<Change>, e: Entry)
    requires Proper(log, at, start, h) && start <= |h| && EntryProper(e, h)
    ensures Proper(log + [e], at + [|h|], start, h)
    ensures |at| == |log|
  {
    assert h[..|h|] == h;
  }

  lemma ProperLater(log: seq<Entry>, at: seq<nat>, start: nat, h: seq<Change>, h': seq<Change>)
    requires Proper(log, at, start, h) && h <= h'
    ensures Proper(log, at, start, h')
  {
    assert forall i :: 0 <= i < |at| ==> h'[..at[i]] == h[..at[i]];
  }

  lemma ProperMeans(log: seq<Entry>, at: seq<nat>, start: nat, h: seq<Change>, h': seq<Change>)
    requires Proper(log, at, start, h) && h <= h'
    ensures |at| == |log|
    ensures forall i :: 0 <= i < |log| ==>
              && start <= at[i] <= |h|
              && (log[i].called <==> !DeletedSince(h'[..at[i]], log[i].dev))
              && (log[i].registered <==> LastAdded(h'[..at[i]], log[i].dev))
              && (log[i].called ==> log[i].registered)
  {
    ProperLater(log, at, start, h, h');
    forall i | 0 <= i < |log|
      ensures log[i].called <==> !DeletedSince(h'[..at[i]], log[i].dev)
      ensures log[i].registered <==> LastAdded(h'[..at[i]], log[i].dev)
    {
      assert EntryProper(log[i], h'[..at[i]]);
      RemovedMeans(h'[..at[i]], log[i].dev);
      RegisteredMeans(h'[..at[i]], log[i].dev);
    }
  }

  /** The order in which the conditions of one event are handled. */
  function Kinds(e: Event): seq<Kind>
  {
    (if e.out then [Writable] else []) + (if e.in_ then [Readable] else []) + (if e.err then [Failed] else [])
  }

  function Tag(d: IODevice, ks: seq<Kind>): seq<(IODevice, Kind)>
  {
    seq(|ks|, i requires 0 <= i < |ks| => (d, ks[i]))
  }

  function Reported(batch: seq<Event>): seq<(IODevice, Kind)>
  {
    if batch == [] then []
    else Reported(batch[..|batch| - 1]) + Tag(batch[|batch| - 1].dev, Kinds(batch[|batch| - 1]))
  }

  function Keys(log: seq<Entry>): seq<(IODevice, Kind)>
  {
    seq(|log|, i requires 0 <= i < |log| => (log[i].dev, log[i].kind))
  }

  lemma KeysSnoc(log: seq<Entry>, e: Entry)
    ensures Keys(log + [e]) == Keys(log) + [(e.dev, e.kind)]
  {
  }

  lemma TagSnoc(d: IODevice, ks: seq<Kind>, k: nat)
    requires k < |ks|
    ensures Tag(d, ks[..k + 1]) == Tag(d, ks[..k]) + [(d, ks[k])]
  {
  }

  lemma ReportedSnoc(batch: seq<Event>, i: nat)
    requires i < |batch|
    ensures Reported(batch[..i + 1]) == Reported(batch[..i]) + Tag(batch[i].dev, Kinds(batch[i]))
  {
    assert batch[..i + 1][..i] == batch[..i];
  }

  /** One event: writable before readable before failed, each if it was reported. */
  lemma ReportedOne(e: Event)
    ensures Reported([e]) ==
      (if e.out then [(e.dev, Writable)] else [])
      + (if e.in_ then [(e.dev, Readable)] else [])
      + (if e.err then [(e.dev, Failed)] else [])
  {
    assert [e][..0] == [] && Reported([e][..0]) == [];
    var ks := Kinds(e);
    assert Tag(e.dev, ks) == (if e.out then [(e.dev, Writable)] else [])
      + (if e.in_ then [(e.dev, Readable)] else []) + (if e.err then [(e.dev, Failed)] else []);
  }

  lemma ReportedLast(batch: seq<Event>, e: Event)
    ensures Reported(batch + [e]) == Reported(batch) + Tag(e.dev, Kinds(e))
  {
    hide Tag, Kinds;
    assert (batch + [e])[..|batch|] == batch;
  }

  /** Events in the order of the batch. */
  lemma {:induction false} ReportedInOrder(batch: seq<Event>, more: seq<Event>)
    ensures Reported(batch + more) == Reported(batch) + Reported(more)
    decreases |more|
  {
    if more == [] {
      assert batch + more == batch;
    } else {
      hide Reported, Tag, Kinds;
      var front, e := more[..|more| - 1], more[|more| - 1];
      ReportedInOrder(batch, front);
      ReportedLast(batch + front, e);
      ReportedLast(front, e);
      assert more == front + [e] && batch + more == (batch + front) + [e];
      Regroup(Reported(batch), Reported(front), Tag(e.dev, Kinds(e)));
    }
  }
}
