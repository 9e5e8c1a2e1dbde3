/** Starting a detached thread and waiting for it: the mutex, the running flag and the
    semaphore of thread.cc. `close` keeps the mutex while it waits on the semaphore. */
module ThreadJoin {
  import opened Conditions
  import S = Semaphores

  /** `onRun`: callbacks still to finish, then sem_.wakeup(), then is_run_ = false. */
  datatype Runner = Callbacks(left: nat) | Clearing | Ended

  /** `close`: taking the mutex, testing the flag, and the semaphore wait in between. */
  datatype Closer = Entering | Testing | Cleared | Blocked | Leaving | Returned

  datatype Owner = Free | By(t: Tid)

  datatype State = State(isRun: bool, mutex: Owner, runners: seq<Runner>, closers: map<Tid, Closer>, sem: S.Sem)

  datatype Action =
    | Start(callbacks: nat) | Exit
    | FinishCallback(g: nat) | Signal(g: nat, w: Choice) | Clear(g: nat)
    | Close(t: Tid) | Lock(t: Tid) | Test(t: Tid) | SemWait(t: Tid) | SemRecheck(t: Tid)
    | SemSpurious(t: Tid) | Unlock(t: Tid)

  const CREATED: State := State(false, Free, [], map[], S.INITIAL)

  predicate At(s: State, t: Tid, pc: Closer) { t in s.closers && s.closers[t] == pc }

  predicate AllCalled(pc: Runner) { !pc.Callbacks? || pc.left == 0 }

  predicate Enabled(s: State, a: Action)
  {
    match a
    case Start(_) => s.mutex == Free
    case Exit => s.mutex == Free
    case FinishCallback(g) => g < |s.runners| && s.runners[g].Callbacks? && s.runners[g].left > 0
    case Signal(g, w) =>
      g < |s.runners| && s.runners[g] == Callbacks(0) && S.Enabled(s.sem, S.Wakeup(w))
    case Clear(g) => g < |s.runners| && s.runners[g] == Clearing
    case Close(t) => t !in s.closers || s.closers[t] == Returned
    case Lock(t) => At(s, t, Entering) && s.mutex == Free
    case Test(t) => At(s, t, Testing)
    case SemWait(t) => At(s, t, Cleared) && S.Enabled(s.sem, S.Wait(t))
    case SemRecheck(t) => At(s, t, Blocked) && S.Enabled(s.sem, S.Recheck(t))
    case SemSpurious(t) => At(s, t, Blocked) && S.Enabled(s.sem, S.Spurious(t))
    case Unlock(t) => At(s, t, Leaving)
  }

  function Move(s: State, t: Tid, pc: Closer): State { s.(closers := s.closers[t := pc]) }

  /** The closer goes on if the semaphore step let it through. */
  function AfterSem(s: State, t: Tid, a: S.Action): State
    requires S.Enabled(s.sem, a)
  {
    Move(s.(sem := S.Apply(s.sem, a)), t, if S.Completes(s.sem, a) then Leaving else Blocked)
  }

  function Apply(s: State, a: Action): State
    requires Enabled(s, a)
  {
    match a
    case Start(n) => if s.isRun then s else s.(isRun := true, runners := s.runners + [Callbacks(n)])
    case Exit => s.(isRun := false)
    case FinishCallback(g) => s.(runners := s.runners[g := Callbacks(s.runners[g].left - 1)])
    case Signal(g, w) => s.(runners := s.runners[g := Clearing], sem := S.Apply(s.sem, S.Wakeup(w)))
    case Clear(g) => s.(runners := s.runners[g := Ended], isRun := false)
    case Close(t) => Move(s, t, Entering)
    case Lock(t) => Move(s.(mutex := By(t)), t, Testing)
    case Test(t) => if s.isRun then Move(s.(isRun := false), t, Cleared) else Move(s, t, Leaving)
    case SemWait(t) => AfterSem(s, t, S.Wait(t))
    case SemRecheck(t) => AfterSem(s, t, S.Recheck(t))
    case SemSpurious(t) => s.(sem := S.Apply(s.sem, S.Spurious(t)))
    case Unlock(t) => Move(s.(mutex := Free), t, Returned)
  }

  // ------------------------------------------------------------- invariant

  /** Just started, with `n` callbacks ahead, `k` permits left over in the semaphore, and
      earlier threads all gone. */
  function Started(older: seq<Runner>, n: nat, k: nat): State
  {
    State(true, Free, older + [Callbacks(n)], map[], S.Sem(k, 0, EMPTY))
  }

  predicate Holding(pc: Closer) { pc.Testing? || pc.Cleared? || pc.Blocked? || pc.Leaving? }

  predicate Signalled(s: State)
    requires |s.runners| > 0
  {
    !s.runners[|s.runners| - 1].Callbacks?
  }

  /** The semaphore before any closer waits on it, and after one has returned. */
  predicate Untouched(s: State)
    requires |s.runners| > 0
  {
    s.sem == S.Sem(if Signalled(s) then 1 else 0, 0, EMPTY)
  }

  predicate Spent(s: State)
    requires |s.runners| > 0
  {
    Signalled(s) && s.sem == S.INITIAL
  }

  /** `t` waits on the semaphore: not granted yet, or granted and runnable. */
  predicate WaitedOn(s: State, t: Tid)
    requires |s.runners| > 0
  {
    if Signalled(s) then s.sem == S.Sem(0, 1, Cond({}, {t}))
    else s.sem == S.Sem(-1, 0, Cond({t}, {})) || s.sem == S.Sem(-1, 0, Cond({}, {t}))
  }

  /** What the closer at `pc` knows. */
  predicate Knows(s: State, t: Tid, pc: Closer)
    requires |s.runners| > 0
  {
    match pc
    case Cleared => !s.isRun && Untouched(s)
    case Blocked => !s.isRun && WaitedOn(s, t)
    case Leaving => Signalled(s)
    case Returned => Signalled(s)
    case _ => true
  }

  predicate Pending(s: State)
  {
    s.mutex.By? && s.mutex.t in s.closers
    && (s.closers[s.mutex.t].Cleared? || s.closers[s.mutex.t].Blocked?)
  }

  ghost predicate Inv(s: State)
  {
    && |s.runners| > 0
    && (forall g :: 0 <= g < |s.runners| - 1 ==> s.runners[g] == Ended)
    && (s.mutex.By? ==> s.mutex.t in s.closers && Holding(s.closers[s.mutex.t]))
    && (forall t :: t in s.closers ==> (Holding(s.closers[t]) ==> s.mutex == By(t)) && Knows(s, t, s.closers[t]))
    && (!Pending(s) ==>
          || (Untouched(s) && s.isRun == !s.runners[|s.runners| - 1].Ended?)
          || (Spent(s) && !s.isRun))
  }

  /** Only the running thread and its closers: no second start, no `exit`. */
  predicate Quiet(a: Action) { !a.Start? && !a.Exit? }

  lemma RunnerKeeps(s: State, a: Action)
    requires Inv(s) && Enabled(s, a) && (a.FinishCallback? || a.Signal? || a.Clear?)
    ensures Inv(Apply(s, a))
  {
    var s' := Apply(s, a);
    assert a.g == |s.runners| - 1;
    if Pending(s) { assert Knows(s, s.mutex.t, s.closers[s.mutex.t]); }
    forall t | t in s'.closers
      ensures (Holding(s'.closers[t]) ==> s'.mutex == By(t)) && Knows(s', t, s'.closers[t])
    {
      assert Knows(s, t, s.closers[t]);
    }
  }

  lemma CloserKeeps(s: State, a: Action)
    requires Inv(s) && Enabled(s, a) && (a.Close? || a.Lock? || a.Test? || a.Unlock?)
    ensures Inv(Apply(s, a))
  {
    var s' := Apply(s, a);
    if a.t in s.closers { assert Knows(s, a.t, s.closers[a.t]); }
    forall t | t in s'.closers
      ensures (Holding(s'.closers[t]) ==> s'.mutex == By(t)) && Knows(s', t, s'.closers[t])
    {
      if t != a.t { assert Knows(s, t, s.closers[t]); }
    }
  }

  lemma SemKeeps(s: State, a: Action)
    requires Inv(s) && Enabled(s, a) && (a.SemWait? || a.SemRecheck? || a.SemSpurious?)
    ensures Inv(Apply(s, a))
  {
    var s' := Apply(s, a);
    assert Knows(s, a.t, s.closers[a.t]) && s.mutex == By(a.t);
    assert {a.t} - {a.t} == {} && {} + {a.t} == {a.t} && {a.t} + {a.t} == {a.t};
    forall t | t in s'.closers
      ensures (Holding(s'.closers[t]) ==> s'.mutex == By(t)) && Knows(s', t, s'.closers[t])
    {
      if t != a.t { assert Knows(s, t, s.closers[t]); }
    }
  }

  lemma StepKeeps(s: State, a: Action)
    requires Inv(s) && Enabled(s, a) && Quiet(a)
    ensures Inv(Apply(s, a))
  {
    if a.FinishCallback? || a.Signal? || a.Clear? {
      RunnerKeeps(s, a);
    } else if a.Close? || a.Lock? || a.Test? || a.Unlock? {
      CloserKeeps(s, a);
    } else {
      SemKeeps(s, a);
    }
  }

  // ------------------------------------------------------------ whole runs

  ghost predicate IsRun(ss: seq<State>, acts: seq<Action>)
  {
    && |ss| == |acts| + 1
    && (forall i :: 0 <= i < |acts| ==> Enabled(ss[i], acts[i]) && ss[i + 1] == Apply(ss[i], acts[i]))
  }

  /** No second start, and no `exit` unless allowed. */
  ghost predicate Only(acts: seq<Action>, exits: bool)
  {
    forall i :: 0 <= i < |acts| ==> !acts[i].Start? && (exits || !acts[i].Exit?)
  }

  ghost predicate QuietRun(ss: seq<State>, acts: seq<Action>) { IsRun(ss, acts) && Only(acts, false) }

  lemma {:induction false} RunKeeps(ss: seq<State>, acts: seq<Action>, i: nat)
    requires QuietRun(ss, acts) && Inv(ss[0]) && i <= |acts|
    ensures Inv(ss[i])
    decreases i
  {
    if i > 0 {
      RunKeeps(ss, acts, i - 1);
      StepKeeps(ss[i - 1], acts[i - 1]);
    }
  }

  /** A `close` that has returned found every callback of the last thread finished. */
  predicate Joined(s: State)
  {
    |s.runners| > 0 && forall t :: t in s.closers && s.closers[t] == Returned ==> AllCalled(s.runners[|s.runners| - 1])
  }

  /** `close` joins, in every run from here on, however many threads call it. */
  ghost predicate Joins(s: State)
  {
    forall ss: seq<State>, acts: seq<Action>, i: nat :: QuietRun(ss, acts) && ss[0] == s && i < |ss| ==> Joined(ss[i])
  }

  /** Closers never wait for ever: while one is inside `close`, the thread or a closer can
      take a step that is no spurious wakeup; and once the thread has signalled, the blocked
      closer's own next step lets it through. */
  lemma NeverStuck(s: State, t: Tid)
    requires Inv(s) && t in s.closers && !s.closers[t].Returned?
    ensures exists a :: Quiet(a) && !a.SemSpurious? && !a.Close? && Enabled(s, a)
    ensures s.closers[t].Blocked? && Signalled(s) ==>
      Enabled(s, SemRecheck(t)) && Apply(s, SemRecheck(t)).closers[t] == Leaving
  {
    assert Knows(s, t, s.closers[t]);
    if s.mutex.Free? {
      assert Enabled(s, Lock(t));
    } else {
      var u := s.mutex.t;
      var g := |s.runners| - 1;
      assert Knows(s, u, s.closers[u]);
      match s.closers[u] {
        case Testing => assert Enabled(s, Test(u));
        case Cleared => assert Enabled(s, SemWait(u));
        case Leaving => assert Enabled(s, Unlock(u));
        case Blocked =>
          if Signalled(s) { assert Enabled(s, SemRecheck(u)); }
          else if s.runners[g].left > 0 { assert Enabled(s, FinishCallback(g)); }
          else if u in s.sem.cond.asleep { assert Enabled(s, Signal(g, Thread(u))); }
          else { assert Enabled(s, Signal(g, Nobody)); }
      }
    }
  }

  lemma JoinsWithoutPermit(older: seq<Runner>, n: nat)
    requires AllEnded(older)
    ensures Joins(Started(older, n, 0))
  {
    var s0 := Started(older, n, 0);
    assert Inv(s0);
    forall ss: seq<State>, acts: seq<Action>, i: nat | QuietRun(ss, acts) && ss[0] == s0 && i < |ss|
      ensures Joined(ss[i])
    {
      RunKeeps(ss, acts, i);
      ReturnedIsJoined(ss[i]);
    }
  }

  lemma ReturnedIsJoined(s: State)
    requires Inv(s)
    ensures Joined(s)
  {
    forall t | t in s.closers && s.closers[t] == Returned ensures AllCalled(s.runners[|s.runners| - 1]) {
      assert Knows(s, t, Returned);
    }
  }

  /** One more step of a run; without `exits` it is a quiet one. */
  lemma Extend(ss: seq<State>, acts: seq<Action>, a: Action, exits: bool) returns (ss': seq<State>, acts': seq<Action>)
    requires IsRun(ss, acts) && Enabled(ss[|acts|], a) && Only(acts, exits) && Only([a], exits)
    ensures IsRun(ss', acts') && Only(acts', exits)
    ensures ss'[0] == ss[0] && ss'[|acts'|] == Apply(ss[|acts|], a)
  {
    ss', acts' := ss + [Apply(ss[|acts|], a)], acts + [a];
    assert [a][0] == a;
  }

  /** `ss`, `acts` is a quiet run in which `close` does not join. */
  ghost predicate Breaks(ss: seq<State>, acts: seq<Action>)
  {
    QuietRun(ss, acts) && !Joined(ss[|acts|])
  }

  /** A closer that finds the flag cleared by somebody else returns at once. */
  lemma CloseUnwaited(ss: seq<State>, acts: seq<Action>, t: Tid, exits: bool)
      returns (ss': seq<State>, acts': seq<Action>)
    requires IsRun(ss, acts) && Only(acts, exits)
    requires var s := ss[|acts|]; s.mutex == Free && !s.isRun && (t in s.closers ==> s.closers[t] in {Entering, Returned})
    ensures IsRun(ss', acts') && Only(acts', exits) && ss'[0] == ss[0]
    ensures ss'[|acts'|] == Move(ss[|acts|], t, Returned)
  {
    var s := ss[|acts|];
    ss', acts' := ss, acts;
    if !At(s, t, Entering) { ss', acts' := Extend(ss', acts', Close(t), exits); }
    ss', acts' := Extend(ss', acts', Lock(t), exits);
    ss', acts' := Extend(ss', acts', Test(t), exits);
    ss', acts' := Extend(ss', acts', Unlock(t), exits);
    assert s.closers[t := Entering][t := Testing][t := Leaving][t := Returned] == s.closers[t := Returned];
    assert At(s, t, Entering) ==> s.closers[t := Testing][t := Leaving][t := Returned] == s.closers[t := Returned];
  }

  /** A closer that finds the flag set and a permit in the semaphore returns at once, too. */
  lemma CloseWithPermit(ss: seq<State>, acts: seq<Action>, t: Tid) returns (ss': seq<State>, acts': seq<Action>)
    requires QuietRun(ss, acts)
    requires var s := ss[|acts|]; s.mutex == Free && s.isRun && t !in s.closers && s.sem.waitCount > 0 && s.sem.cond == EMPTY
    ensures QuietRun(ss', acts') && ss'[0] == ss[0]
    ensures ss'[|acts'|].runners == ss[|acts|].runners && At(ss'[|acts'|], t, Returned)
  {
    ss', acts' := Extend(ss, acts, Close(t), false);
    ss', acts' := Extend(ss', acts', Lock(t), false);
    ss', acts' := Extend(ss', acts', Test(t), false);
    ss', acts' := Extend(ss', acts', SemWait(t), false);
    ss', acts' := Extend(ss', acts', Unlock(t), false);
  }

  /** A left-over permit lets the first `close` through at once. */
  lemma PermitBreaksJoin(older: seq<Runner>, n: nat, k: nat)
    requires n > 0 && k > 0
    ensures !Joins(Started(older, n, k))
  {
    var ss, acts := CloseWithPermit([Started(older, n, k)], [], 0);
    assert Breaks(ss, acts);
  }

  /** An earlier thread between its wakeup and its last statement clears the new flag. */
  lemma LateClearBreaksJoin(older: seq<Runner>, n: nat, k: nat, g: nat)
    requires n > 0 && g < |older| && older[g] == Clearing
    ensures !Joins(Started(older, n, k))
  {
    var ss, acts := [Started(older, n, k)], [];
    ss, acts := Extend(ss, acts, Clear(g), false);
    ss, acts := CloseUnwaited(ss, acts, 0, false);
    assert Breaks(ss, acts);
  }

  /** An earlier thread still in its callbacks finishes them and leaves a permit. */
  lemma OlderThreadBreaksJoin(older: seq<Runner>, n: nat, k: nat, g: nat)
    requires n > 0 && g < |older| && older[g].Callbacks?
    ensures !Joins(Started(older, n, k))
  {
    var ss, acts := FinishOlder(older, n, k, g);
    ss, acts := Extend(ss, acts, Signal(g, Nobody), false);
    ss, acts := CloseWithPermit(ss, acts, 0);
    assert Breaks(ss, acts);
  }

  lemma {:induction false} FinishOlder(older: seq<Runner>, n: nat, k: nat, g: nat)
      returns (ss: seq<State>, acts: seq<Action>)
    requires g < |older| && older[g].Callbacks?
    ensures QuietRun(ss, acts) && ss[0] == Started(older, n, k)
    ensures ss[|acts|] == Started(older[g := Callbacks(0)], n, k)
    decreases older[g].left
  {
    if older[g].left == 0 {
      ss, acts := [Started(older, n, k)], [];
      assert older[g := Callbacks(0)] == older;
    } else {
      var less := older[g := Callbacks(older[g].left - 1)];
      var rest, more := FinishOlder(less, n, k, g);
      assert (older + [Callbacks(n)])[g := less[g]] == less + [Callbacks(n)];
      assert less[g := Callbacks(0)] == older[g := Callbacks(0)];
      ss, acts := [Started(older, n, k)] + rest, [FinishCallback(g)] + more;
      assert forall i :: 0 < i < |acts| ==> acts[i] == more[i - 1] && ss[i] == rest[i - 1];
    }
  }

  ghost predicate AllEnded(runners: seq<Runner>)
  {
    forall g :: 0 <= g < |runners| ==> runners[g] == Ended
  }

  /** Joining works from a start onwards exactly when the start found no permit left over and
      no earlier thread alive, not even one that had only its last statement to go. */
  lemma JoinsIffNothingLeft(older: seq<Runner>, n: nat, k: nat)
    requires n > 0
    ensures Joins(Started(older, n, k)) <==> k == 0 && AllEnded(older)
  {
    if k > 0 {
      PermitBreaksJoin(older, n, k);
    } else if AllEnded(older) {
      JoinsWithoutPermit(older, n);
    } else {
      var g :| 0 <= g < |older| && older[g] != Ended;
      if older[g].Clearing? { LateClearBreaksJoin(older, n, k, g); } else { OlderThreadBreaksJoin(older, n, k, g); }
    }
  }

  /** The first start of a thread object finds none. */
  lemma FirstStartJoins(n: nat)
    requires n > 0
    ensures Enabled(CREATED, Start(n)) && Joins(Apply(CREATED, Start(n)))
  {
    assert [] + [Callbacks(n)] == [Callbacks(n)];
    JoinsIffNothingLeft([], n, 0);
  }

  /** Some `close` found the thread running. */
  ghost predicate Caught(ss: seq<State>, acts: seq<Action>, i: nat)
    requires |acts| <= |ss| && i <= |acts|
  {
    exists j :: 0 <= j < i && acts[j].Test? && ss[j].isRun
  }

  ghost predicate SpendsWhenCaught(s: State, caught: bool)
    requires Inv(s)
  {
    if caught then Pending(s) || (Spent(s) && !s.isRun) else !Pending(s) && Untouched(s)
  }

  lemma CaughtStep(s: State, a: Action, caught: bool)
    requires Inv(s) && Enabled(s, a) && Quiet(a) && SpendsWhenCaught(s, caught)
    ensures Inv(Apply(s, a)) && SpendsWhenCaught(Apply(s, a), caught || (a.Test? && s.isRun))
  {
    StepKeeps(s, a);
    if Pending(s) { assert Knows(s, s.mutex.t, s.closers[s.mutex.t]); }
    match a {
      case SemWait(t) => assert Knows(s, t, Cleared);
      case SemRecheck(t) => assert Knows(s, t, Blocked);
      case SemSpurious(t) => assert Knows(s, t, Blocked);
      case _ =>
    }
  }

  lemma {:induction false} CaughtSpends(ss: seq<State>, acts: seq<Action>, i: nat)
    requires QuietRun(ss, acts) && Inv(ss[0]) && ss[0].isRun && Untouched(ss[0]) && !Pending(ss[0])
    requires i <= |acts|
    ensures Inv(ss[i]) && SpendsWhenCaught(ss[i], Caught(ss, acts, i))
    decreases i
  {
    if i > 0 {
      CaughtSpends(ss, acts, i - 1);
      CaughtStep(ss[i - 1], acts[i - 1], Caught(ss, acts, i - 1));
      assert Caught(ss, acts, i) <==> Caught(ss, acts, i - 1) || (acts[i - 1].Test? && ss[i - 1].isRun);
    }
  }

  /** Once a thread has ended and nobody is inside `close`, a permit is left over exactly
      when no `close` caught it running: such a thread must not be restarted. */
  lemma StalePermitLeft(older: seq<Runner>, n: nat, ss: seq<State>, acts: seq<Action>)
    requires forall g :: 0 <= g < |older| ==> older[g] == Ended
    requires QuietRun(ss, acts) && ss[0] == Started(older, n, 0)
    requires var s := ss[|acts|]; s.mutex == Free && s.runners != [] && s.runners[|s.runners| - 1].Ended?
    ensures ss[|acts|].sem == S.Sem(if Caught(ss, acts, |acts|) then 0 else 1, 0, EMPTY)
  {
    assert Inv(ss[0]);
    CaughtSpends(ss, acts, |acts|);
  }

  // ------------------------------------- any starts, closes and exits at all

  /** What holds however often the thread object is started, closed and exited. */
  ghost predicate Structure(s: State)
  {
    && s.sem.Valid()
    && (s.mutex.By? ==> s.mutex.t in s.closers && Holding(s.closers[s.mutex.t]))
    && (forall t :: t in s.closers && Holding(s.closers[t]) ==> s.mutex == By(t))
    && (forall t :: s.sem.cond.Waiting(t) ==> At(s, t, Blocked))
  }

  lemma StructureKept(s: State, a: Action)
    requires Structure(s) && Enabled(s, a)
    ensures Structure(Apply(s, a))
  {
    hide S.Apply, S.Completes;
    match a {
      case Signal(_, w) => SemStructure(s, S.Wakeup(w));
      case SemWait(t) => SemStructure(s, S.Wait(t));
      case SemRecheck(t) => SemStructure(s, S.Recheck(t));
      case SemSpurious(t) => SemStructure(s, S.Spurious(t));
      case _ =>
    }
  }

  /** A semaphore step makes only a thread wait that is blocked by it. */
  lemma SemStructure(s: State, b: S.Action)
    requires s.sem.Valid() && S.Enabled(s.sem, b)
    ensures var sem := S.Apply(s.sem, b);
      && sem.Valid()
      && (forall t :: sem.cond.Waiting(t) ==>
            s.sem.cond.Waiting(t) || (b == S.Wait(t) && !S.Completes(s.sem, b)))
      && (forall t :: b == S.Wait(t) || b == S.Recheck(t) ==> S.Completes(s.sem, b) ==> !sem.cond.Waiting(t))
  {
    S.StepKeeps(s.sem, b);
    S.StepWaiters(s.sem, b);
  }

  /** Threads that have ended their callbacks and signalled, among the first `i` actions. */
  function Signals(acts: seq<Action>, i: nat): nat
    requires i <= |acts|
  {
    if i == 0 then 0 else Signals(acts, i - 1) + (if acts[i - 1].Signal? then 1 else 0)
  }

  /** Closers that found the running flag set, among the first `i` actions. */
  function Catches(ss: seq<State>, acts: seq<Action>, i: nat): nat
    requires i <= |acts| <= |ss|
  {
    if i == 0 then 0 else Catches(ss, acts, i - 1) + (if acts[i - 1].Test? && ss[i - 1].isRun then 1 else 0)
  }

  /** A closer that has found the flag set and not yet come to the semaphore. */
  function Due(s: State): nat
  {
    if s.mutex.By? && At(s, s.mutex.t, Cleared) then 1 else 0
  }

  lemma StepBalance(s: State, a: Action)
    requires Structure(s) && Enabled(s, a)
    ensures var s' := Apply(s, a);
      s'.sem.waitCount - Due(s') ==
        s.sem.waitCount - Due(s) + (if a.Signal? then 1 else 0) - (if a.Test? && s.isRun then 1 else 0)
  {
    hide S.Completes, S.Sem.Valid;
  }

  lemma {:induction false} PermitsBalance(ss: seq<State>, acts: seq<Action>, i: nat)
    requires IsRun(ss, acts) && ss[0] == CREATED && i <= |acts|
    ensures Structure(ss[i])
    ensures ss[i].sem.waitCount - Due(ss[i]) == Signals(acts, i) - Catches(ss, acts, i)
    decreases i
  {
    if i > 0 {
      hide Apply, Structure, Due;
      PermitsBalance(ss, acts, i - 1);
      StructureKept(ss[i - 1], acts[i - 1]);
      StepBalance(ss[i - 1], acts[i - 1]);
    }
  }

  /** Over every run from creation on, with nobody inside `close`: the semaphore holds one
      permit for every thread that signalled without a `close` having caught it running. */
  lemma PermitsLeft(ss: seq<State>, acts: seq<Action>)
    requires IsRun(ss, acts) && ss[0] == CREATED && ss[|acts|].mutex == Free
    ensures Catches(ss, acts, |acts|) <= Signals(acts, |acts|)
    ensures ss[|acts|].sem == S.Sem(Signals(acts, |acts|) - Catches(ss, acts, |acts|), 0, EMPTY)
  {
    PermitsBalance(ss, acts, |acts|);
    var s := ss[|acts|];
    assert s.sem.cond.asleep == {} && s.sem.cond.notified == {} by {
      forall t ensures t !in s.sem.cond.asleep && t !in s.sem.cond.notified { assert !s.sem.cond.Waiting(t); }
    }
  }

  /** Starts that found the flag clear, among the first `i` actions. */
  function FreshStarts(ss: seq<State>, acts: seq<Action>, i: nat): nat
    requires i <= |acts| <= |ss|
  {
    if i == 0 then 0 else FreshStarts(ss, acts, i - 1) + (if acts[i - 1].Start? && !ss[i - 1].isRun then 1 else 0)
  }

  /** As many threads were ever created as starts found the flag clear; a start that finds it
      set changes nothing at all. */
  lemma {:induction false} StartsOnlyWhenIdle(ss: seq<State>, acts: seq<Action>, i: nat)
    requires IsRun(ss, acts) && ss[0] == CREATED && i <= |acts|
    ensures |ss[i].runners| == FreshStarts(ss, acts, i)
    ensures i < |acts| && acts[i].Start? && ss[i].isRun ==> ss[i + 1] == ss[i]
    decreases i
  {
    if i > 0 { StartsOnlyWhenIdle(ss, acts, i - 1); }
  }

  /** A start, looked at for the calls of `close` that come after it. */
  function Restarted(s: State, n: nat): State
    requires Enabled(s, Start(n))
  {
    Apply(s, Start(n)).(closers := map[])
  }

  /** Whatever was started, closed and exited before: a start is one that later closers join
      exactly if every earlier thread has ended, and each was caught running by one `close`. */
  lemma RestartJoinsIff(ss: seq<State>, acts: seq<Action>, n: nat)
    requires IsRun(ss, acts) && ss[0] == CREATED && n > 0
    requires var s := ss[|acts|]; Enabled(s, Start(n)) && !s.isRun
    ensures Joins(Restarted(ss[|acts|], n)) <==>
      AllEnded(ss[|acts|].runners) && Signals(acts, |acts|) == Catches(ss, acts, |acts|)
  {
    PermitsLeft(ss, acts);
    var s := ss[|acts|];
    assert Restarted(s, n) == Started(s.runners, n, s.sem.waitCount);
    JoinsIffNothingLeft(s.runners, n, s.sem.waitCount);
  }

  lemma Concat(ss: seq<State>, acts: seq<Action>, more: seq<State>, extra: seq<Action>)
      returns (ss': seq<State>, acts': seq<Action>)
    requires IsRun(ss, acts) && IsRun(more, extra)
    requires |ss| == |acts| + 1 && |more| == |extra| + 1 && more[0] == ss[|acts|]
    ensures IsRun(ss', acts') && |ss'| == |acts'| + 1 && ss <= ss' && acts' == acts + extra && ss'[|acts'|] == more[|extra|]
  {
    ss', acts' := ss + more[1..], acts + extra;
    assert forall i :: |acts| <= i < |ss'| ==> ss'[i] == more[i - |acts|];
  }

  /** After a first start and `close`: the closer has returned, rightly, and the thread has
      its last statement still to go. */
  const CLOSED: State := State(false, Free, [Clearing], map[0 := Returned], S.INITIAL)

  const SLEEPING: State := State(false, By(0), [Callbacks(1)], map[0 := Blocked], S.Sem(-1, 0, Cond({0}, {})))

  lemma FirstSleeps() returns (ss: seq<State>, acts: seq<Action>)
    ensures QuietRun(ss, acts) && ss[0] == Started([], 1, 0) && ss[|acts|] == SLEEPING
  {
    ss, acts := [Started([], 1, 0)], [];
    ss, acts := Extend(ss, acts, Close(0), false);
    ss, acts := Extend(ss, acts, Lock(0), false);
    ss, acts := Extend(ss, acts, Test(0), false);
    ss, acts := Extend(ss, acts, SemWait(0), false);
  }

  const GRANTED: State := State(false, By(0), [Clearing], map[0 := Blocked], S.Sem(0, 1, Cond({}, {0})))

  lemma FirstSignals() returns (ss: seq<State>, acts: seq<Action>)
    ensures QuietRun(ss, acts) && ss[0] == SLEEPING && ss[|acts|] == GRANTED
  {
    ss, acts := [SLEEPING], [];
    ss, acts := Extend(ss, acts, FinishCallback(0), false);
    ss, acts := Extend(ss, acts, Signal(0, Thread(0)), false);
  }

  lemma FirstReturns() returns (ss: seq<State>, acts: seq<Action>)
    ensures QuietRun(ss, acts) && ss[0] == GRANTED && ss[|acts|] == CLOSED
  {
    ss, acts := [GRANTED], [];
    ss, acts := Extend(ss, acts, SemRecheck(0), false);
    ss, acts := Extend(ss, acts, Unlock(0), false);
  }

  lemma FirstClose() returns (ss: seq<State>, acts: seq<Action>)
    ensures IsRun(ss, acts) && |ss| == |acts| + 1 && ss[0] == CREATED && ss[|acts|] == CLOSED
    ensures forall i :: 0 <= i < |acts| ==> !acts[i].Exit?
  {
    assert Apply(CREATED, Start(1)) == Started([], 1, 0) by { assert [] + [Callbacks(1)] == [Callbacks(1)]; }
    hide Apply, IsRun;
    ss, acts := OneStep(CREATED, Start(1));
    var more, extra := FirstSleeps();
    ss, acts := Concat(ss, acts, more, extra);
    more, extra := FirstSignals();
    ss, acts := Concat(ss, acts, more, extra);
    more, extra := FirstReturns();
    ss, acts := Concat(ss, acts, more, extra);
  }

  /** The late write of the first thread, then a `close` that does not wait. */
  lemma SecondReturns(n: nat) returns (ss: seq<State>, acts: seq<Action>)
    ensures QuietRun(ss, acts) && ss[0] == Apply(CLOSED, Start(n))
    ensures At(ss[|acts|], 1, Returned) && ss[|acts|].runners == [Ended, Callbacks(n)]
  {
    ss, acts := [Apply(CLOSED, Start(n))], [];
    ss, acts := Extend(ss, acts, Clear(0), false);
    ss, acts := CloseUnwaited(ss, acts, 1, false);
  }

  lemma OneStep(s: State, a: Action) returns (ss: seq<State>, acts: seq<Action>)
    requires Enabled(s, a)
    ensures ss == [s, Apply(s, a)] && acts == [a] && IsRun(ss, acts)
  {
    ss, acts := [s, Apply(s, a)], [a];
  }

  /** The ordinary sequence start, close, start, close, with no permit left over: the first
      thread's late write clears the flag of the second, and the second `close` returns with
      every callback still to run. */
  lemma RestartBreaksJoin(n: nat)
    requires n > 0
    ensures exists ss: seq<State>, acts: seq<Action>, j: nat ::
      && IsRun(ss, acts) && ss[0] == CREATED && (forall i :: 0 <= i < |acts| ==> !acts[i].Exit?)
      && j < |acts| && acts[j] == Start(n) && ss[j] == CLOSED
      && At(ss[|acts|], 1, Returned) && ss[|acts|].runners == [Ended, Callbacks(n)]
  {
    hide Apply;
    var ss, acts := FirstClose();
    var j := |acts|;
    var more, extra := OneStep(CLOSED, Start(n));
    ss, acts := Concat(ss, acts, more, extra);
    more, extra := SecondReturns(n);
    ss, acts := Concat(ss, acts, more, extra);
    assert ss[j] == CLOSED && acts[j] == Start(n);
  }

  // ----------------------------------------------------------------- exit

  /** Callbacks that are done stay done. */
  lemma {:induction false} StaysCalled(ss: seq<State>, acts: seq<Action>, i: nat)
    requires QuietRun(ss, acts) && ss[0].runners != [] && AllCalled(ss[0].runners[|ss[0].runners| - 1]) && i <= |acts|
    ensures |ss[i].runners| == |ss[0].runners| && AllCalled(ss[i].runners[|ss[0].runners| - 1])
    decreases i
  {
    if i > 0 { StaysCalled(ss, acts, i - 1); }
  }

  /** After an `exit`, `close` joins exactly if there is nothing left to wait for. */
  lemma JoinsAfterExitIff(s: State)
    requires Inv(s) && Enabled(s, Exit)
    ensures Joins(Apply(s, Exit)) <==> AllCalled(s.runners[|s.runners| - 1])
  {
    var s' := Apply(s, Exit);
    if AllCalled(s.runners[|s.runners| - 1]) {
      forall ss: seq<State>, acts: seq<Action>, i: nat | QuietRun(ss, acts) && ss[0] == s' && i < |ss|
        ensures Joined(ss[i])
      {
        StaysCalled(ss, acts, i);
      }
    } else {
      assert 0 in s.closers ==> Knows(s, 0, s.closers[0]);
      var ss, acts := CloseUnwaited([s'], [], 0, false);
      assert At(ss[|acts|], 0, Returned) && ss[|acts|].runners == s.runners;
      assert Breaks(ss, acts);
    }
  }

  /** In particular, as one run from a first start with callbacks to run. */
  lemma ExitBreaksJoin(n: nat)
    requires n > 0
    ensures exists ss: seq<State>, acts: seq<Action> ::
              && IsRun(ss, acts) && ss[0] == Started([], n, 0)
              && Only(acts, true) && !Joined(ss[|acts|])
  {
    var ss, acts := Extend([Started([], n, 0)], [], Exit, true);
    ss, acts := CloseUnwaited(ss, acts, 0, true);
    assert At(ss[|acts|], 0, Returned) && !Joined(ss[|acts|]);
  }

  // ------------------------------------------------------------- the class

  /** The fields of thread.cc and the short stretches of code that change them; `state`
      adds where every thread stands in its call. */
  class Thread {
    var isRun: bool
    const sem: S.Semaphore
    ghost var state: State

    ghost predicate Valid()
      reads this, sem
    {
      isRun == state.isRun && sem.State() == state.sem && state.sem.Valid()
    }

    constructor ()
      ensures Valid() && state == CREATED && fresh(sem)
    {
      isRun, state := false, CREATED;
      sem := new S.Semaphore();
    }

    /** `start`: true when a new thread was created. */
    method StartThread(ghost callbacks: nat) returns (created: bool)
      requires Valid() && Enabled(state, Start(callbacks))
      modifies this
      ensures Valid() && state == Apply(old(state), Start(callbacks))
      ensures created <==> !old(isRun)
      ensures created ==> isRun && state.runners == old(state.runners) + [Callbacks(callbacks)]
      ensures !created ==> state == old(state)
    {
      state := Apply(state, Start(callbacks));
      if isRun { return false; }
      isRun := true;
      return true;
    }

    /** `exit`: the flag is cleared and nothing waited for. */
    method ExitThread()
      requires Valid() && Enabled(state, Exit)
      modifies this
      ensures Valid() && state == Apply(old(state), Exit)
      ensures !isRun && state.runners == old(state.runners) && state.closers == old(state.closers)
    {
      state := Apply(state, Exit);
      if isRun { isRun := false; }
    }

    /** `close` with the mutex held, up to the semaphore: true when it has to wait. */
    method TestAndClear(ghost t: Tid) returns (mustWait: bool)
      requires Valid() && Enabled(state, Test(t))
      modifies this
      ensures Valid() && state == Apply(old(state), Test(t))
      ensures mustWait <==> state.closers[t] == Cleared
      ensures mustWait == old(isRun) && !isRun
    {
      state := Apply(state, Test(t));
      mustWait := isRun;
      if isRun { isRun := false; }
    }

    /** The semaphore wait inside `close`: true when `close` goes on to return. */
    method WaitForEnd(t: Tid) returns (done: bool)
      requires Valid() && Enabled(state, SemWait(t))
      modifies this, sem
      ensures Valid() && state == Apply(old(state), SemWait(t))
      ensures done <==> state.closers[t] == Leaving
    {
      state := Apply(state, SemWait(t));
      done := sem.Wait(t);
    }

    /** The end of `onRun`: first the wakeup, then the flag. */
    method SignalEnd(ghost g: nat) returns (w: Choice)
      requires Valid() && g < |state.runners| && state.runners[g] == Callbacks(0)
      modifies this, sem
      ensures Valid() && Enabled(old(state), Signal(g, w)) && state == Apply(old(state), Signal(g, w))
    {
      w := sem.Wakeup();
      state := Apply(state, Signal(g, w));
    }

    method ClearRun(ghost g: nat)
      requires Valid() && Enabled(state, Clear(g))
      modifies this
      ensures Valid() && state == Apply(old(state), Clear(g))
      ensures !isRun && state.runners == old(state.runners)[g := Ended]
    {
      state := Apply(state, Clear(g));
      isRun := false;
    }
  }
}
