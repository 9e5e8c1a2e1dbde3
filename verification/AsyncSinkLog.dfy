/** From the arguments of `log` to the adapted sink: every record a producer logs arrives, and
    each producer's records arrive in the order of its calls. */
module AsyncSinkLog {
  import opened Conditions
  import opened ObjectPools
  import Q = ConcurrentQueues
  import J = ThreadJoin
  import opened AsyncSink
  import opened AsyncSinkInvariants
  import opened AsyncSinkProofs

  /** The records `t` gave to `log` in the first `i` actions. */
  function Logged(acts: seq<Action>, i: nat, t: Tid): seq<Record>
    requires i <= |acts|
  {
    if i == 0 then []
    else
      var before := Logged(acts, i - 1, t);
      if acts[i - 1].GetObject? && acts[i - 1].t == t then before + [acts[i - 1].rec] else before
  }

  /** Who made the list of pushed records grow, one name for each record. */
  function Pushers(ss: seq<State>, acts: seq<Action>, i: nat): seq<Tid>
    requires i <= |acts| < |ss|
  {
    if i == 0 then []
    else
      var before := Pushers(ss, acts, i - 1);
      if acts[i - 1].PushRecord? && |ss[i].pushed| > |ss[i - 1].pushed| then before + [acts[i - 1].t] else before
  }

  /** The records among `rs` that are `t`'s. */
  function Of(rs: seq<Record>, who: seq<Tid>, t: Tid): seq<Record>
    requires |rs| == |who|
  {
    if rs == [] then []
    else
      var n := |rs| - 1;
      var before := Of(rs[..n], who[..n], t);
      if who[n] == t then before + [rs[n]] else before
  }

  lemma OfSnoc(rs: seq<Record>, who: seq<Tid>, r: Record, u: Tid, t: Tid)
    requires |rs| == |who|
    ensures Of(rs + [r], who + [u], t) == if u == t then Of(rs, who, t) + [r] else Of(rs, who, t)
  {
    assert (rs + [r])[..|rs|] == rs && (who + [u])[..|rs|] == who;
  }

  /** The record `t` has in hand. */
  function InHand(p: Producer): seq<Record> { if p.Idle? then [] else [p.rec] }

  /** What one step does to what a producer has in hand. */
  lemma StepHands(s: State, a: Action, t: Tid)
    requires Enabled(s, a) && t in s.producers
    ensures var s' := Apply(s, a);
      && t in s'.producers && (a.GetObject? && a.t == t ==> InHand(s.producers[t]) == [])
      && InHand(s'.producers[t]) ==
           if a.GetObject? && a.t == t then [a.rec]
           else if a.PushRecord? && a.t == t && !s.queue.Full() then []
           else InHand(s.producers[t])
  {
    hide Q.Apply, Q.Enabled, J.Apply, J.Enabled, JoinAllowed, Loggable, Buffers, Take;
    var ps := Apply(s, a).producers;
    if a.GetObject? || a.FillBuffer? || a.PushRecord? {
      assert ps == s.producers || ps == s.producers[a.t := ps[a.t]];
    } else {
      assert ps == s.producers;
    }
  }

  /** The list of pushed records grows by a completed push, and by what was in hand. */
  lemma StepPushes(s: State, a: Action)
    requires Enabled(s, a)
    ensures var s' := Apply(s, a);
      if a.PushRecord? && !s.queue.Full() then
        a.t in s.producers && |InHand(s.producers[a.t])| == 1 && s'.pushed == s.pushed + InHand(s.producers[a.t])
      else s'.pushed == s.pushed
  {
    hide Q.Apply, J.Apply, J.Enabled;
  }

  ghost predicate Arrived(s: State, who: seq<Tid>, logged: seq<Record>, t: Tid)
  {
    |who| == |s.pushed| && t in s.producers && Of(s.pushed, who, t) + InHand(s.producers[t]) == logged
  }

  lemma StepArrives(s: State, a: Action, who: seq<Tid>, logged: seq<Record>, t: Tid)
    requires Enabled(s, a) && Arrived(s, who, logged, t)
    ensures var s' := Apply(s, a);
      Arrived(s',
              if a.PushRecord? && |s'.pushed| > |s.pushed| then who + [a.t] else who,
              if a.GetObject? && a.t == t then logged + [a.rec] else logged, t)
  {
    StepHands(s, a, t);
    StepPushes(s, a);
    hide Apply, Enabled, InHand;
    if a.PushRecord? && !s.queue.Full() {
      var r := InHand(s.producers[a.t])[0];
      assert InHand(s.producers[a.t]) == [r];
      OfSnoc(s.pushed, who, r, a.t, t);
      assert a.t == t ==> Of(s.pushed, who, t) + [r] + [] == logged;
    }
  }

  lemma {:induction false} RunArrives(ss: seq<State>, acts: seq<Action>, i: nat, t: Tid)
    requires IsRun(ss, acts) && i <= |acts| && t in ss[0].producers && ss[0].pushed == [] && ss[0].producers[t].Idle?
    ensures Arrived(ss[i], Pushers(ss, acts, i), Logged(acts, i, t), t)
    decreases i
  {
    if i > 0 {
      RunArrives(ss, acts, i - 1, t);
      StepArrives(ss[i - 1], acts[i - 1], Pushers(ss, acts, i - 1), Logged(acts, i - 1, t), t);
    }
  }

  /** Only the sink's producers log and push. */
  lemma {:induction false} OnlyProducers(ss: seq<State>, acts: seq<Action>, i: nat)
    requires IsRun(ss, acts) && i <= |acts| && ss[0].pushed == []
    ensures |Pushers(ss, acts, i)| == |ss[i].pushed| && ss[i].producers.Keys == ss[0].producers.Keys
    ensures forall t :: t in Pushers(ss, acts, i) ==> t in ss[0].producers
    ensures forall t :: t !in ss[0].producers ==> Logged(acts, i, t) == []
    decreases i
  {
    if i > 0 {
      OnlyProducers(ss, acts, i - 1);
      ProducersFixed(ss[i - 1], acts[i - 1]);
      StepPushes(ss[i - 1], acts[i - 1]);
      hide Apply, InHand;
    }
  }

  /** Every record ever given to `log` is pushed, exactly once, byte for byte and in the order
      of the producer's calls, except the one still in hand of a call under way; and once
      `close` has returned the adapted sink has received all of them, in that order, and
      nothing else. */
  lemma EveryRecordArrives(ss: seq<State>, acts: seq<Action>, queueSize: nat, producers: set<Tid>, i: nat)
    requires SinkRun(ss, acts, queueSize, producers) && i <= |acts|
    ensures var s, who := ss[i], Pushers(ss, acts, i);
      && |who| == |s.pushed| && (forall t :: t in who ==> t in producers)
      && s.producers.Keys == producers
      && (forall t :: t !in producers ==> Logged(acts, i, t) == [])
      && (forall t :: t in producers && s.producers[t].Idle? ==> Of(s.pushed, who, t) == Logged(acts, i, t))
      && (forall t :: t in producers && !s.producers[t].Idle? ==>
            var logged := Logged(acts, i, t);
            logged != [] && Of(s.pushed, who, t) == logged[..|logged| - 1])
    ensures J.At(ss[i].join, DESTROYER, J.Returned) ==>
      && |Pushers(ss, acts, i)| == |ss[i].received|
      && (forall t :: t in producers ==> Of(ss[i].received, Pushers(ss, acts, i), t) == Logged(acts, i, t))
  {
    OnlyProducers(ss, acts, i);
    RunInv(ss, acts, queueSize, producers, i);
    Delivery(ss, acts, queueSize, producers, i);
    if J.At(ss[i].join, DESTROYER, J.Returned) { AfterClose(ss[i]); }
    forall t | t in producers
      ensures Arrived(ss[i], Pushers(ss, acts, i), Logged(acts, i, t), t)
    {
      RunArrives(ss, acts, i, t);
    }
    hide Inv, Pushers, Logged, Of, Apply, Enabled, IsRun;
  }
}
