/**
 The lock, wait and notify protocol of src/queue/BlockingQueue.hpp as a step system.

 Any number of threads share one mutex and one condition variable. A step is one move of one thread: entering a
 call, acquiring the mutex, the body of a critical section together with its release (or, in `wait`, with the
 atomic release-and-sleep), a notification sent after the release, a handler returning, or a spurious wakeup.
 A run is any sequence of enabled steps.
 */
module Handoff {
  import opened Wrappers
  import opened BoundedQueue

  /** Where a thread is. `index` counts threads from 0 in `State.pcs`. */
  datatype Pc<T> =
    | Outside                  // in no queue call
    | PushEntry(item: T)       // called push, mutex not acquired
    | PushLocked(item: T)      // in push's critical section
    | PushNotify               // left it, notify_one not sent
    | CloseEntry
    | CloseLocked
    | CloseNotify              // left close's critical section, notify_all not sent
    | PopEntry                 // called pop, mutex not acquired
    | PopLocked                // in pop's critical section, wait predicate not yet evaluated
    | Asleep                   // waiting on the condition variable
    | Woken                    // notified or woken spuriously, mutex not reacquired
    | WokenLocked              // reacquired, predicate about to be evaluated again
    | Handling(item: T)        // pop returned true, the handler runs
    | Exited                   // pop returned false, the consumer loop is over

  datatype State<T> = State(
    capacity: nat,
    pcs: seq<Pc<T>>,
    holder: Option<nat>,       // the thread that holds the mutex
    ledger: Ledger<T>,         // the protected fields and their history
    ops: seq<Op<T>>,           // critical sections completed, in lock order
    handed: seq<T>)            // items whose handler call has returned

  datatype Event<T> =
    | BeginPush(t: nat, item: T)
    | BeginClose(t: nat)
    | BeginPop(t: nat)
    | Acquire(t: nat)
    | Body(t: nat)
    | NotifyOne(t: nat, sleeper: Option<nat>)
    | NotifyAll(t: nat)
    | HandlerReturns(t: nat)
    | SpuriousWakeup(t: nat)

  predicate WantsLock<T>(p: Pc<T>) {
    p.PushEntry? || p.CloseEntry? || p.PopEntry? || p.Woken?
  }

  predicate InCriticalSection<T>(p: Pc<T>) {
    p.PushLocked? || p.CloseLocked? || p.PopLocked? || p.WokenLocked?
  }

  predicate InConsumerLoop<T>(p: Pc<T>) {
    p.PopEntry? || p.PopLocked? || p.Asleep? || p.Woken? || p.WokenLocked? || p.Handling? || p.Exited?
  }

  predicate SomeoneAsleep<T>(pcs: seq<Pc<T>>) {
    exists i :: 0 <= i < |pcs| && pcs[i].Asleep?
  }

  predicate Enabled<T>(s: State<T>, e: Event<T>) {
    && e.t < |s.pcs|
    && var p := s.pcs[e.t];
       match e
       case BeginPush(_, _) => p.Outside?
       case BeginClose(_) => p.Outside?
       case BeginPop(_) => p.Outside?
       case Acquire(_) => WantsLock(p) && s.holder.None?
       case Body(_) => InCriticalSection(p)
       case NotifyOne(_, None) => p.PushNotify? && !SomeoneAsleep(s.pcs)
       case NotifyOne(_, Some(w)) => p.PushNotify? && w < |s.pcs| && s.pcs[w].Asleep?
       case NotifyAll(_) => p.CloseNotify?
       case HandlerReturns(_) => p.Handling?
       case SpuriousWakeup(_) => p.Asleep?
  }

  /** Moves of the protocol itself: everything but new calls and spurious wakeups. */
  predicate Internal<T>(e: Event<T>) {
    !e.BeginPush? && !e.BeginClose? && !e.BeginPop? && !e.SpuriousWakeup?
  }

  function Locked<T>(p: Pc<T>): Pc<T>
    requires WantsLock(p)
  {
    match p
    case PushEntry(x) => PushLocked(x)
    case CloseEntry => CloseLocked
    case PopEntry => PopLocked
    case Woken => WokenLocked
  }

  function WakeAll<T>(pcs: seq<Pc<T>>): seq<Pc<T>> {
    seq(|pcs|, i requires 0 <= i < |pcs| => if pcs[i].Asleep? then Woken else pcs[i])
  }

  /** Thread t completes the critical section `op`, releases the mutex and goes on at p. */
  function Release<T>(s: State<T>, t: nat, op: Op<T>, p: Pc<T>): State<T>
    requires t < |s.pcs| && 1 <= s.capacity
  {
    s.(pcs := s.pcs[t := p], holder := None, ledger := Apply(s.capacity, s.ledger, op), ops := s.ops + [op])
  }

  function Step<T>(s: State<T>, e: Event<T>): State<T>
    requires 1 <= s.capacity && Enabled(s, e)
  {
    var t := e.t;
    match e
    case BeginPush(_, x) => s.(pcs := s.pcs[t := PushEntry(x)])
    case BeginClose(_) => s.(pcs := s.pcs[t := CloseEntry])
    case BeginPop(_) => s.(pcs := s.pcs[t := PopEntry])
    case Acquire(_) => s.(pcs := s.pcs[t := Locked(s.pcs[t])], holder := Some(t))
    case Body(_) => BodyStep(s, t)
    case NotifyOne(_, None) => s.(pcs := s.pcs[t := Outside])
    case NotifyOne(_, Some(w)) => s.(pcs := s.pcs[t := Outside][w := Woken])
    case NotifyAll(_) => s.(pcs := WakeAll(s.pcs[t := Outside]))
    case HandlerReturns(_) => s.(pcs := s.pcs[t := PopEntry], handed := s.handed + [s.pcs[t].item])
    case SpuriousWakeup(_) => s.(pcs := s.pcs[t := Woken])
  }

  function BodyStep<T>(s: State<T>, t: nat): State<T>
    requires 1 <= s.capacity && t < |s.pcs| && InCriticalSection(s.pcs[t])
  {
    var q := s.ledger.queue;
    match s.pcs[t]
    case PushLocked(x) => Release(s, t, PushOp(x), if q.closed then Outside else PushNotify)
    case CloseLocked => Release(s, t, CloseOp, CloseNotify)
    case _ =>
      match Pop(q)
      case Item(x) => Release(s, t, PopOp, Handling(x))
      case Drained => Release(s, t, PopOp, Exited)
      case MustWait => s.(pcs := s.pcs[t := Asleep], holder := None)
  }

  /** The state after the events, or None if one of them was not enabled in its turn. */
  function After<T>(s: State<T>, es: seq<Event<T>>): Option<State<T>>
    requires 1 <= s.capacity
    ensures After(s, es).Some? ==> After(s, es).value.capacity == s.capacity
  {
    if es == [] then Some(s) else
    match After(s, es[..|es| - 1])
    case None => None
    case Some(m) => if Enabled(m, es[|es| - 1]) then Some(Step(m, es[|es| - 1])) else None
  }

  /** A fresh queue; each thread is outside or about to enter the consumer loop. */
  ghost predicate Initial<T>(s: State<T>) {
    && 1 <= s.capacity
    && (forall t :: 0 <= t < |s.pcs| ==> s.pcs[t].Outside? || s.pcs[t].PopEntry?)
    && s.holder.None? && s.ledger == Empty() && s.ops == [] && s.handed == []
  }

  // ---------- Counting threads ----------

  /** What is counted: wakeup credits, or steps left with n threads to wake. */
  datatype Measure = Credit | Weight(n: nat) {
    function Of<T>(p: Pc<T>): nat {
      match this
      case Credit => CreditOf(p)
      case Weight(n) => WeightOf(n, p)
    }
  }

  /** Woken consumers and unsent notify_one calls: each can still take one queued item off a sleeper's hands. */
  function CreditOf<T>(p: Pc<T>): nat {
    if p.Woken? || p.WokenLocked? || p.PushNotify? then 1 else 0
  }

  /** How many more steps a thread at p can cost, with n threads to wake. */
  function WeightOf<T>(n: nat, p: Pc<T>): nat {
    match p
    case Outside => 0
    case PushEntry(_) => 8
    case PushLocked(_) => 7
    case PushNotify => 3
    case CloseEntry => 3 + 2 * n
    case CloseLocked => 2 + 2 * n
    case CloseNotify => 1 + 2 * n
    case PopEntry => 3
    case PopLocked => 2
    case Asleep => 1
    case Woken => 3
    case WokenLocked => 2
    case Handling(_) => 4
    case Exited => 0
  }

  /** The sum of a measure over all threads. */
  function Total<T>(m: Measure, pcs: seq<Pc<T>>): nat {
    if pcs == [] then 0 else m.Of(pcs[0]) + Total(m, pcs[1..])
  }

  lemma {:induction false} TotalUpdate<T>(m: Measure, pcs: seq<Pc<T>>, t: nat, p: Pc<T>)
    requires t < |pcs|
    ensures Total(m, pcs[t := p]) == Total(m, pcs) - m.Of(pcs[t]) + m.Of(p)
  {
    if t == 0 {
      assert pcs[t := p][1..] == pcs[1..];
    } else {
      assert pcs[t := p][1..] == pcs[1..][t - 1 := p];
      TotalUpdate(m, pcs[1..], t - 1, p);
    }
  }

  /** Waking everyone adds at most 2 per thread to the rank. */
  lemma {:induction false} TotalWakeAll<T>(n: nat, pcs: seq<Pc<T>>)
    ensures Total(Weight(n), WakeAll(pcs)) <= Total(Weight(n), pcs) + 2 * |pcs|
  {
    if pcs != [] {
      assert WakeAll(pcs)[1..] == WakeAll(pcs[1..]);
      TotalWakeAll(n, pcs[1..]);
    }
  }

  function Credits<T>(s: State<T>): nat {
    Total(Credit, s.pcs)
  }

  // ---------- Invariant ----------

  ghost predicate MutualExclusion<T>(s: State<T>) {
    forall t: nat :: t < |s.pcs| ==> (InCriticalSection(s.pcs[t]) <==> s.holder == Some(t))
  }

  ghost predicate HolderExists<T>(s: State<T>) {
    s.holder.Some? ==> s.holder.value < |s.pcs|
  }

  /** A sleeper owes its sleep to an empty open queue, or somebody is on the way to wake it or take the items. */
  ghost predicate NobodyForgotten<T>(s: State<T>) {
    SomeoneAsleep(s.pcs) ==>
      && |s.ledger.queue.items| <= Credits(s)
      && (s.ledger.queue.closed ==> exists c :: 0 <= c < |s.pcs| && s.pcs[c].CloseNotify?)
  }

  ghost predicate ExitMeansDrained<T>(s: State<T>) {
    (exists t :: 0 <= t < |s.pcs| && s.pcs[t].Exited?) ==> s.ledger.queue.closed && s.ledger.queue.items == []
  }

  ghost predicate Inv<T>(s: State<T>) {
    && 1 <= s.capacity
    && s.ledger == Exec(s.capacity, s.ops)
    && HolderExists(s) && MutualExclusion(s)
    && ExitMeansDrained(s)
    && NobodyForgotten(s)
  }

  /**
   One thread moves, asleep neither before it counts nor after: enough for everything but falling asleep and
   the two notifications.
   */
  lemma MoveKeepsInv<T>(s: State<T>, s': State<T>, t: nat)
    requires Inv(s) && t < |s.pcs| && |s'.pcs| == |s.pcs|
    requires s'.capacity == s.capacity && s'.ledger == Exec(s.capacity, s'.ops)
    requires s'.pcs == s.pcs[t := s'.pcs[t]]
    requires s'.holder == s.holder || (s.holder in {None, Some(t)} && s'.holder in {None, Some(t)})
    requires InCriticalSection(s'.pcs[t]) <==> s'.holder == Some(t)
    requires var p, p', q, q' := s.pcs[t], s'.pcs[t], s.ledger.queue, s'.ledger.queue;
             && !p'.Asleep? && !p.CloseNotify?
             && (p'.Exited? || (q.closed && q.items == []) ==> q'.closed && q'.items == [])
             && (q'.items == [] || |q'.items| + CreditOf(p) <= |q.items| + CreditOf(p'))
             && (q'.closed ==> q.closed || p'.CloseNotify?)
    ensures Inv(s')
  {
    TotalUpdate(Credit, s.pcs, t, s'.pcs[t]);
    assert forall i :: 0 <= i < |s.pcs| && i != t ==> s'.pcs[i] == s.pcs[i];
  }

  lemma SleepKeepsInv<T>(s: State<T>, t: nat)
    requires Inv(s) && t < |s.pcs| && (s.pcs[t].PopLocked? || s.pcs[t].WokenLocked?)
    requires s.ledger.queue.items == [] && !s.ledger.queue.closed
    ensures Inv(s.(pcs := s.pcs[t := Asleep], holder := None))
  {
    assert forall i :: 0 <= i < |s.pcs| && i != t ==> s.pcs[t := Asleep][i] == s.pcs[i];
  }

  lemma ReleaseKeepsInv<T>(s: State<T>, t: nat, op: Op<T>, p': Pc<T>)
    requires Inv(s) && t < |s.pcs| && InCriticalSection(s.pcs[t]) && !InCriticalSection(p')
    requires var p, q, q' := s.pcs[t], s.ledger.queue, Apply(s.capacity, s.ledger, op).queue;
             && !p'.Asleep?
             && (p'.Exited? || (q.closed && q.items == []) ==> q'.closed && q'.items == [])
             && (q'.items == [] || |q'.items| + CreditOf(p) <= |q.items| + CreditOf(p'))
             && (q'.closed ==> q.closed || p'.CloseNotify?)
    ensures Inv(Release(s, t, op, p'))
  {
    ExecSnoc(s.capacity, s.ops, op);
    MoveKeepsInv(s, Release(s, t, op, p'), t);
  }

  lemma PopKeepsInv<T>(s: State<T>, t: nat)
    requires Inv(s) && t < |s.pcs| && (s.pcs[t].PopLocked? || s.pcs[t].WokenLocked?)
    ensures Inv(BodyStep(s, t))
  {
    match Pop(s.ledger.queue)
    case Item(x) => ReleaseKeepsInv(s, t, PopOp, Handling(x));
    case Drained => ReleaseKeepsInv(s, t, PopOp, Exited);
    case MustWait => SleepKeepsInv(s, t);
  }

  lemma BodyKeepsInv<T>(s: State<T>, t: nat)
    requires Inv(s) && t < |s.pcs| && InCriticalSection(s.pcs[t])
    ensures Inv(BodyStep(s, t))
  {
    var p := s.pcs[t];
    if p.PushLocked? {
      ReleaseKeepsInv(s, t, PushOp(p.item), if s.ledger.queue.closed then Outside else PushNotify);
    } else if p.CloseLocked? {
      ReleaseKeepsInv(s, t, CloseOp, CloseNotify);
    } else {
      PopKeepsInv(s, t);
    }
  }

  lemma NotifyOneKeepsInv<T>(s: State<T>, t: nat, w: nat)
    requires Inv(s) && t < |s.pcs| && w < |s.pcs| && s.pcs[t].PushNotify? && s.pcs[w].Asleep?
    ensures Inv(s.(pcs := s.pcs[t := Outside][w := Woken]))
  {
    var pcs' := s.pcs[t := Outside][w := Woken];
    TotalUpdate(Credit, s.pcs, t, Outside);
    TotalUpdate(Credit, s.pcs[t := Outside], w, Woken);
    assert forall i :: 0 <= i < |s.pcs| && i != t && i != w ==> pcs'[i] == s.pcs[i];
  }

  /** With nobody left asleep there is nobody to forget. */
  lemma AllAwakeKeepsInv<T>(s: State<T>, pcs': seq<Pc<T>>)
    requires Inv(s) && |pcs'| == |s.pcs| && !SomeoneAsleep(pcs')
    requires forall i :: 0 <= i < |s.pcs| ==> (InCriticalSection(pcs'[i]) <==> InCriticalSection(s.pcs[i]))
    requires forall i :: 0 <= i < |s.pcs| ==> (pcs'[i].Exited? <==> s.pcs[i].Exited?)
    ensures Inv(s.(pcs := pcs'))
  {
  }

  lemma NotifyNobodyKeepsInv<T>(s: State<T>, t: nat)
    requires Inv(s) && t < |s.pcs| && s.pcs[t].PushNotify? && !SomeoneAsleep(s.pcs)
    ensures Inv(s.(pcs := s.pcs[t := Outside]))
  {
    AllAwakeKeepsInv(s, s.pcs[t := Outside]);
  }

  lemma NotifyAllKeepsInv<T>(s: State<T>, t: nat)
    requires Inv(s) && t < |s.pcs| && s.pcs[t].CloseNotify?
    ensures Inv(s.(pcs := WakeAll(s.pcs[t := Outside])))
  {
    AllAwakeKeepsInv(s, WakeAll(s.pcs[t := Outside]));
  }

  lemma StepKeepsInv<T>(s: State<T>, e: Event<T>)
    requires Inv(s) && Enabled(s, e)
    ensures Inv(Step(s, e))
  {
    match e
    case Body(t) => BodyKeepsInv(s, t);
    case NotifyOne(t, Some(w)) => NotifyOneKeepsInv(s, t, w);
    case NotifyOne(t, None) => NotifyNobodyKeepsInv(s, t);
    case NotifyAll(t) => NotifyAllKeepsInv(s, t);
    case _ => MoveKeepsInv(s, Step(s, e), e.t);
  }

  // ---------- Every run ----------

  lemma {:induction false} RunKeepsInv<T>(s: State<T>, es: seq<Event<T>>)
    requires Inv(s) && After(s, es).Some?
    ensures Inv(After(s, es).value)
  {
    if es != [] {
      RunKeepsInv(s, es[..|es| - 1]);
      StepKeepsInv(After(s, es[..|es| - 1]).value, es[|es| - 1]);
    }
  }

  /** The invariant in every reachable state, and with it the whole sequential history. */
  lemma EveryRun<T>(s0: State<T>, es: seq<Event<T>>)
    requires Initial(s0) && After(s0, es).Some?
    ensures var s := After(s0, es).value; Inv(s) && Balanced(s.capacity, s.ledger)
  {
    assert Inv(s0);
    RunKeepsInv(s0, es);
    HistoryRefinement(s0.capacity, After(s0, es).value.ops);
  }

  /**
   No lost wakeup: while anybody sleeps, the queued items never outnumber woken consumers plus unsent
   notify_one calls, and a closed queue still has a notify_all to send.
   */
  lemma NoLostWakeup<T>(s0: State<T>, es: seq<Event<T>>)
    requires Initial(s0) && After(s0, es).Some?
    ensures var s := After(s0, es).value;
            SomeoneAsleep(s.pcs) ==>
              && |s.ledger.queue.items| <= Credits(s)
              && (s.ledger.queue.closed ==> exists c :: 0 <= c < |s.pcs| && s.pcs[c].CloseNotify?)
  {
    EveryRun(s0, es);
  }

  // ---------- Progress and termination ----------

  predicate Resting<T>(p: Pc<T>) {
    p.Outside? || p.Asleep? || p.Exited?
  }

  ghost predicate Stuck<T(!new)>(s: State<T>) {
    forall e: Event<T> :: Internal(e) ==> !Enabled(s, e)
  }

  lemma {:induction false} NoCredits<T>(pcs: seq<Pc<T>>)
    requires forall t :: 0 <= t < |pcs| ==> CreditOf(pcs[t]) == 0
    ensures Total(Credit, pcs) == 0
  {
    if pcs != [] {
      NoCredits(pcs[1..]);
    }
  }

  /** A thread that is not at rest leaves some protocol step enabled, its own or the lock holder's. */
  lemma BusyThreadCanMove<T>(s: State<T>, t: nat) returns (e: Event<T>)
    requires Inv(s) && t < |s.pcs| && !Resting(s.pcs[t])
    ensures Internal(e) && Enabled(s, e)
  {
    var p := s.pcs[t];
    if WantsLock(p) {
      e := if s.holder.None? then Acquire(t) else Body(s.holder.value);
    } else if InCriticalSection(p) {
      e := Body(t);
    } else if p.PushNotify? {
      if SomeoneAsleep(s.pcs) {
        var w :| 0 <= w < |s.pcs| && s.pcs[w].Asleep?;
        e := NotifyOne(t, Some(w));
      } else {
        e := NotifyOne(t, None);
      }
    } else if p.CloseNotify? {
      e := NotifyAll(t);
    } else {
      e := HandlerReturns(t);
    }
  }

  lemma RestingIsStuck<T(!new)>(s: State<T>)
    requires forall t :: 0 <= t < |s.pcs| ==> Resting(s.pcs[t])
    ensures Stuck(s)
  {
    forall e: Event<T> | Internal(e) ensures !Enabled(s, e) {
      if e.t < |s.pcs| {
        assert Resting(s.pcs[e.t]);
      }
    }
  }

  lemma StuckIsResting<T(!new)>(s: State<T>, t: nat)
    requires Inv(s) && Stuck(s) && t < |s.pcs|
    ensures Resting(s.pcs[t])
  {
    if !Resting(s.pcs[t]) {
      var e := BusyThreadCanMove(s, t);
    }
  }

  lemma RestingSleepersWaitForItems<T>(s: State<T>)
    requires Inv(s) && SomeoneAsleep(s.pcs)
    requires forall t :: 0 <= t < |s.pcs| ==> Resting(s.pcs[t])
    ensures s.ledger.queue.items == [] && !s.ledger.queue.closed
  {
    NoCredits(s.pcs);
  }

  /**
   No deadlock: the protocol has no move left exactly when every thread is outside, asleep or exited, and then
   anybody still asleep waits on an empty, open queue.
   */
  lemma StuckIffResting<T(!new)>(s0: State<T>, es: seq<Event<T>>)
    requires Initial(s0) && After(s0, es).Some?
    ensures var s := After(s0, es).value;
            && (Stuck(s) <==> forall t :: 0 <= t < |s.pcs| ==> Resting(s.pcs[t]))
            && (Stuck(s) && SomeoneAsleep(s.pcs) ==> s.ledger.queue.items == [] && !s.ledger.queue.closed)
  {
    EveryRun(s0, es);
    var s := After(s0, es).value;
    if Stuck(s) {
      forall t: nat | t < |s.pcs| ensures Resting(s.pcs[t]) {
        StuckIsResting(s, t);
      }
      if SomeoneAsleep(s.pcs) {
        RestingSleepersWaitForItems(s);
      }
    } else if forall t :: 0 <= t < |s.pcs| ==> Resting(s.pcs[t]) {
      RestingIsStuck(s);
    }
  }

  function Rank<T>(s: State<T>): nat {
    3 * |s.ledger.queue.items| + Total(Weight(|s.pcs|), s.pcs)
  }

  /** What a call or a spurious wakeup adds to the rank; a protocol step takes one away. */
  function Cost<T>(n: nat, e: Event<T>): nat {
    match e
    case BeginPush(_, _) => 8
    case BeginClose(_) => 3 + 2 * n
    case BeginPop(_) => 3
    case SpuriousWakeup(_) => 2
    case _ => 0
  }

  lemma MoveRank<T>(s: State<T>, s': State<T>, t: nat)
    requires t < |s.pcs| == |s'.pcs| && s'.pcs == s.pcs[t := s'.pcs[t]]
    ensures Rank(s') - Rank(s) == 3 * (|s'.ledger.queue.items| - |s.ledger.queue.items|)
                                  + WeightOf(|s.pcs|, s'.pcs[t]) - WeightOf(|s.pcs|, s.pcs[t])
  {
    TotalUpdate(Weight(|s.pcs|), s.pcs, t, s'.pcs[t]);
  }

  lemma BodyRank<T>(s: State<T>, t: nat)
    requires 1 <= s.capacity && t < |s.pcs| && InCriticalSection(s.pcs[t])
    ensures Rank(BodyStep(s, t)) < Rank(s)
  {
    MoveRank(s, BodyStep(s, t), t);
  }

  lemma NotifyRank<T>(s: State<T>, e: Event<T>)
    requires 1 <= s.capacity && Enabled(s, e) && (e.NotifyOne? || e.NotifyAll?)
    ensures Rank(Step(s, e)) < Rank(s)
  {
    var n, t := |s.pcs|, e.t;
    TotalUpdate(Weight(n), s.pcs, t, Outside);
    if e.NotifyAll? {
      TotalWakeAll(n, s.pcs[t := Outside]);
    } else if e.sleeper.Some? {
      TotalUpdate(Weight(n), s.pcs[t := Outside], e.sleeper.value, Woken);
    }
  }

  lemma StepRank<T>(s: State<T>, e: Event<T>)
    requires 1 <= s.capacity && Enabled(s, e)
    ensures |Step(s, e).pcs| == |s.pcs|
    ensures Rank(Step(s, e)) + (if Internal(e) then 1 else 0) <= Rank(s) + Cost(|s.pcs|, e)
    ensures !Internal(e) ==> Rank(Step(s, e)) == Rank(s) + Cost(|s.pcs|, e)
    ensures Internal(e) ==> Cost(|s.pcs|, e) == 0
  {
    match e
    case Body(t) => BodyRank(s, t);
    case NotifyOne(_, _) => NotifyRank(s, e);
    case NotifyAll(_) => NotifyRank(s, e);
    case _ => MoveRank(s, Step(s, e), e.t);
  }

  function InternalSteps<T>(es: seq<Event<T>>): nat {
    if es == [] then 0
    else InternalSteps(es[..|es| - 1]) + if Internal(es[|es| - 1]) then 1 else 0
  }

  function Budget<T>(n: nat, es: seq<Event<T>>): nat {
    if es == [] then 0
    else Budget(n, es[..|es| - 1]) + Cost(n, es[|es| - 1])
  }

  /**
   Termination: over any run, the protocol's own steps are bounded by the starting rank plus a constant for each
   new call and each spurious wakeup. Without those, the system comes to rest within `Rank(s)` steps.
   */
  lemma {:induction false} StepsAreBounded<T>(s: State<T>, es: seq<Event<T>>)
    requires 1 <= s.capacity && After(s, es).Some?
    ensures |After(s, es).value.pcs| == |s.pcs|
    ensures InternalSteps(es) + Rank(After(s, es).value) <= Rank(s) + Budget(|s.pcs|, es)
  {
    if es != [] {
      StepsAreBounded(s, es[..|es| - 1]);
      StepRank(After(s, es[..|es| - 1]).value, es[|es| - 1]);
    }
  }

  // ---------- Shutdown ----------

  /** Only BeginPop enters the consumer loop, and nothing leaves it. */
  lemma StepKeepsRole<T>(s: State<T>, e: Event<T>, i: nat)
    requires 1 <= s.capacity && Enabled(s, e) && i < |s.pcs|
    ensures |Step(s, e).pcs| == |s.pcs|
    ensures InConsumerLoop(Step(s, e).pcs[i]) <==> InConsumerLoop(s.pcs[i]) || (e.BeginPop? && e.t == i)
  {
  }

  /** A thread in the consumer loop never leaves it. */
  lemma {:induction false} ConsumerForever<T>(s: State<T>, es: seq<Event<T>>, c: nat)
    requires 1 <= s.capacity && After(s, es).Some?
    requires c < |s.pcs| && InConsumerLoop(s.pcs[c])
    ensures var s' := After(s, es).value; c < |s'.pcs| && InConsumerLoop(s'.pcs[c])
  {
    if es != [] {
      ConsumerForever(s, es[..|es| - 1], c);
      StepKeepsRole(After(s, es[..|es| - 1]).value, es[|es| - 1], c);
    }
  }

  /**
   Shutdown drain, for any number of consumers: once the queue is closed and no protocol step is left, every
   consumer has exited, the queue is empty, and each accepted item was delivered or displaced, never both.
   */
  lemma ShutdownDrains<T(!new)>(s0: State<T>, es: seq<Event<T>>, c: nat)
    requires Initial(s0) && After(s0, es).Some?
    requires c < |s0.pcs| && s0.pcs[c].PopEntry?
    requires Stuck(After(s0, es).value) && After(s0, es).value.ledger.queue.closed
    ensures var s := After(s0, es).value; var l := s.ledger;
            && c < |s.pcs| && s.pcs[c].Exited?
            && l.queue.items == []
            && |l.delivered| + l.queue.dropped == |l.accepted|
            && forall i: nat :: i < |l.accepted| ==> (i in l.delivered <==> i !in l.displaced)
  {
    EveryRun(s0, es);
    StuckIffResting(s0, es);
    ConsumerForever(s0, es, c);
  }

  lemma AfterSnoc<T>(s: State<T>, es: seq<Event<T>>, e: Event<T>)
    requires 1 <= s.capacity
    ensures After(s, es + [e]) ==
            match After(s, es)
            case None => None
            case Some(m) => if Enabled(m, e) then Some(Step(m, e)) else None
  {
    assert (es + [e])[..|es + [e]| - 1] == es;
  }

  lemma {:induction false} AfterConcat<T>(s: State<T>, es: seq<Event<T>>, more: seq<Event<T>>)
    requires 1 <= s.capacity && After(s, es).Some?
    ensures After(s, es + more) == After(After(s, es).value, more)
  {
    if more == [] {
      assert es + more == es;
    } else {
      var rest, e := more[..|more| - 1], more[|more| - 1];
      AfterConcat(s, es, rest);
      AfterSnoc(s, es + rest, e);
      assert es + rest + [e] == es + more;
    }
  }

  lemma {:induction false} AllInternal<T>(n: nat, es: seq<Event<T>>)
    requires forall i :: 0 <= i < |es| ==> Internal(es[i])
    ensures InternalSteps(es) == |es| && Budget(n, es) == 0
  {
    if es != [] {
      AllInternal(n, es[..|es| - 1]);
    }
  }

  lemma {:induction false} StaysClosed<T>(s: State<T>, es: seq<Event<T>>)
    requires 1 <= s.capacity && s.ledger.queue.closed && After(s, es).Some?
    ensures After(s, es).value.ledger.queue.closed
  {
    if es != [] {
      StaysClosed(s, es[..|es| - 1]);
    }
  }

  /**
   With no new calls and no spurious wakeups, the whole system comes to rest within `Rank` steps of a reachable
   closed state, and then every consumer has exited with nothing left in the queue.
   */
  lemma QuietShutdown<T(!new)>(s0: State<T>, es: seq<Event<T>>, more: seq<Event<T>>, c: nat)
    requires Initial(s0) && After(s0, es).Some? && After(s0, es).value.ledger.queue.closed
    requires c < |s0.pcs| && s0.pcs[c].PopEntry?
    requires (forall i :: 0 <= i < |more| ==> Internal(more[i])) && After(After(s0, es).value, more).Some?
    ensures var s, s' := After(s0, es).value, After(After(s0, es).value, more).value;
            && |more| + Rank(s') <= Rank(s)
            && (Stuck(s') ==> c < |s'.pcs| && s'.pcs[c].Exited? && s'.ledger.queue.items == [])
  {
    var s := After(s0, es).value;
    AfterConcat(s0, es, more);
    AllInternal(|s.pcs|, more);
    StepsAreBounded(s, more);
    StaysClosed(s, more);
    if Stuck(After(s, more).value) {
      ShutdownDrains(s0, es + more, c);
    }
  }

  // ---------- Shutdown under load ----------

  /** Moves of thread c itself: a spurious wakeup or a notification is done to it, not by it. */
  predicate OwnMove<T>(c: nat, e: Event<T>) {
    e.t == c && !e.SpuriousWakeup?
  }

  function OwnMoves<T>(c: nat, es: seq<Event<T>>): nat {
    if es == [] then 0
    else OwnMoves(c, es[..|es| - 1]) + if OwnMove(c, es[|es| - 1]) then 1 else 0
  }

  /** Moves a consumer at p is from exiting a closed, empty queue. */
  function ExitWeight<T>(p: Pc<T>): nat {
    match p
    case PopEntry => 2
    case PopLocked => 1
    case Asleep => 2
    case Woken => 2
    case WokenLocked => 1
    case Handling(_) => 3
    case _ => 0
  }

  /** Moves consumer c is from exiting, if nobody takes an item from it. */
  function ExitRank<T>(s: State<T>, c: nat): nat
    requires c < |s.pcs|
  {
    3 * |s.ledger.queue.items| + ExitWeight(s.pcs[c])
  }

  /** On a closed queue the consumer's own moves lower its rank, and nothing anybody else does raises it. */
  lemma ExitStep<T>(s: State<T>, e: Event<T>, c: nat)
    requires 1 <= s.capacity && Enabled(s, e) && s.ledger.queue.closed
    requires c < |s.pcs| && InConsumerLoop(s.pcs[c])
    ensures var s' := Step(s, e);
            && s'.ledger.queue.closed && |s'.pcs| == |s.pcs| && InConsumerLoop(s'.pcs[c])
            && ExitRank(s', c) + (if OwnMove(c, e) then 1 else 0) <= ExitRank(s, c)
            && (s'.pcs[c].Asleep? ==> s.pcs[c].Asleep?)
  {
  }

  /**
   Over any events after `close` - more pushes, closes and pops by other threads, spurious wakeups, notifications -
   a consumer makes at most `ExitRank` moves of its own, and once awake it never sleeps again.
   */
  lemma {:induction false} ExitIsBounded<T>(s: State<T>, es: seq<Event<T>>, c: nat)
    requires 1 <= s.capacity && s.ledger.queue.closed && After(s, es).Some?
    requires c < |s.pcs| && InConsumerLoop(s.pcs[c])
    ensures var s' := After(s, es).value;
            && s'.ledger.queue.closed && |s'.pcs| == |s.pcs| && InConsumerLoop(s'.pcs[c])
            && OwnMoves(c, es) + ExitRank(s', c) <= ExitRank(s, c)
            && (s'.pcs[c].Asleep? ==> s.pcs[c].Asleep?)
  {
    if es != [] {
      ExitIsBounded(s, es[..|es| - 1], c);
      ExitStep(After(s, es[..|es| - 1]).value, es[|es| - 1], c);
    }
  }

  /** What consumer c waits for: a move of its own, the lock holder's release, or a notify_all still to come. */
  predicate BringsExit<T>(s: State<T>, c: nat, e: Event<T>) {
    OwnMove(c, e) || (e.Body? && s.holder == Some(e.t)) || e.NotifyAll?
  }

  /** On a closed queue a consumer that has not exited is never stranded. */
  lemma ExitIsOpen<T>(s: State<T>, c: nat) returns (e: Event<T>)
    requires Inv(s) && s.ledger.queue.closed
    requires c < |s.pcs| && InConsumerLoop(s.pcs[c]) && !s.pcs[c].Exited?
    ensures Enabled(s, e) && Internal(e) && BringsExit(s, c, e)
    ensures !s.pcs[c].Asleep? ==> OwnMove(c, e) || (e.Body? && s.holder == Some(e.t))
  {
    var p := s.pcs[c];
    if WantsLock(p) {
      e := if s.holder.None? then Acquire(c) else Body(s.holder.value);
    } else if InCriticalSection(p) {
      e := Body(c);
    } else if p.Handling? {
      e := HandlerReturns(c);
    } else {
      var t :| 0 <= t < |s.pcs| && s.pcs[t].CloseNotify?;
      e := NotifyAll(t);
    }
  }

  /**
   Shutdown terminates, whatever the other threads go on doing: from any reachable closed state and over any
   events, a consumer makes at most `ExitRank` own moves before it has exited, and until then one of its own
   moves, the lock holder's release or a notify_all can happen. Having made that many it has exited.
   */
  lemma ShutdownTerminates<T>(s0: State<T>, es: seq<Event<T>>, more: seq<Event<T>>, c: nat)
    requires Initial(s0) && After(s0, es).Some? && After(s0, es).value.ledger.queue.closed
    requires c < |After(s0, es).value.pcs| && InConsumerLoop(After(s0, es).value.pcs[c])
    requires After(After(s0, es).value, more).Some?
    ensures var s, s' := After(s0, es).value, After(After(s0, es).value, more).value;
            && c < |s'.pcs| && InConsumerLoop(s'.pcs[c])
            && OwnMoves(c, more) + ExitRank(s', c) <= ExitRank(s, c)
            && (OwnMoves(c, more) == ExitRank(s, c) ==> s'.pcs[c].Exited?)
            && (s'.pcs[c].Exited? ==> s'.ledger.queue.items == [])
            && (s'.pcs[c].Asleep? ==> s.pcs[c].Asleep?)
            && (!s'.pcs[c].Exited? ==> exists e :: Enabled(s', e) && Internal(e) && BringsExit(s', c, e))
  {
    var s := After(s0, es).value;
    AfterConcat(s0, es, more);
    EveryRun(s0, es + more);
    ExitIsBounded(s, more, c);
    var s' := After(s, more).value;
    if !s'.pcs[c].Exited? {
      var e := ExitIsOpen(s', c);
    }
  }

  // ---------- One consumer: QueueSink ----------

  /** Thread c is the only one ever in the consumer loop. */
  ghost predicate OnlyConsumer<T>(s: State<T>, c: nat) {
    && c < |s.pcs|
    && forall t :: 0 <= t < |s.pcs| ==> (InConsumerLoop(s.pcs[t]) <==> t == c)
  }

  /** What the consumer thread popped is what the handler was given, in order, plus the item it is handling. */
  ghost predicate HandedInOrder<T>(s: State<T>, c: nat)
    requires 1 <= s.capacity && c < |s.pcs|
  {
    Returned(s.capacity, s.ops) == s.handed + if s.pcs[c].Handling? then [s.pcs[c].item] else []
  }

  lemma StepKeepsOnlyConsumer<T>(s: State<T>, e: Event<T>, c: nat)
    requires Inv(s) && Enabled(s, e) && !e.BeginPop? && OnlyConsumer(s, c)
    ensures OnlyConsumer(Step(s, e), c)
  {
    forall i: nat | i < |s.pcs| {
      StepKeepsRole(s, e, i);
    }
  }

  lemma ReleaseKeepsHanded<T>(s: State<T>, t: nat, c: nat, op: Op<T>, p': Pc<T>)
    requires 1 <= s.capacity && t < |s.pcs| && InCriticalSection(s.pcs[t])
    requires s.ledger == Exec(s.capacity, s.ops)
    requires c < |s.pcs| && HandedInOrder(s, c)
    requires var r := Pop(s.ledger.queue);
             if op.PopOp? && r.Item? then t == c && p' == Handling(r.value) else !p'.Handling?
    ensures HandedInOrder(Release(s, t, op, p'), c)
  {
    ExecSnoc(s.capacity, s.ops, op);
  }

  lemma BodyKeepsHanded<T>(s: State<T>, t: nat, c: nat)
    requires 1 <= s.capacity && t < |s.pcs| && InCriticalSection(s.pcs[t])
    requires s.ledger == Exec(s.capacity, s.ops)
    requires c < |s.pcs| && (InConsumerLoop(s.pcs[t]) <==> t == c) && HandedInOrder(s, c)
    ensures HandedInOrder(BodyStep(s, t), c)
  {
    var p, q := s.pcs[t], s.ledger.queue;
    if p.PushLocked? {
      ReleaseKeepsHanded(s, t, c, PushOp(p.item), if q.closed then Outside else PushNotify);
    } else if p.CloseLocked? {
      ReleaseKeepsHanded(s, t, c, CloseOp, CloseNotify);
    } else if Pop(q).Item? {
      ReleaseKeepsHanded(s, t, c, PopOp, Handling(Pop(q).value));
    } else if Pop(q).Drained? {
      ReleaseKeepsHanded(s, t, c, PopOp, Exited);
    }
  }

  lemma StepKeepsHanded<T>(s: State<T>, e: Event<T>, c: nat)
    requires Inv(s) && Enabled(s, e) && !e.BeginPop?
    requires OnlyConsumer(s, c) && HandedInOrder(s, c)
    ensures HandedInOrder(Step(s, e), c)
  {
    if e.Body? {
      BodyKeepsHanded(s, e.t, c);
    }
  }

  lemma {:induction false} SingleConsumer<T>(s: State<T>, es: seq<Event<T>>, c: nat)
    requires Inv(s) && OnlyConsumer(s, c) && HandedInOrder(s, c)
    requires After(s, es).Some? && forall i :: 0 <= i < |es| ==> !es[i].BeginPop?
    ensures var s' := After(s, es).value; OnlyConsumer(s', c) && HandedInOrder(s', c)
  {
    if es != [] {
      var before, e := es[..|es| - 1], es[|es| - 1];
      SingleConsumer(s, before, c);
      RunKeepsInv(s, before);
      StepKeepsOnlyConsumer(After(s, before).value, e, c);
      StepKeepsHanded(After(s, before).value, e, c);
    }
  }

  /**
   When `stop` returns, its join has seen the consumer exit. By then every accepted tick was given to the
   handler exactly once and in acceptance order, or is counted in `dropped()`.
   */
  lemma StopLosesNothing<T>(s0: State<T>, es: seq<Event<T>>, c: nat)
    requires Initial(s0) && OnlyConsumer(s0, c)
    requires After(s0, es).Some? && forall i :: 0 <= i < |es| ==> !es[i].BeginPop?
    requires var s := After(s0, es).value; c < |s.pcs| && s.pcs[c].Exited?
    ensures var s := After(s0, es).value; var l := s.ledger;
            && l.queue.closed && l.queue.items == []
            && |s.handed| == |l.delivered|
            && |s.handed| + l.queue.dropped == |l.accepted|
            && Increasing(l.delivered)
            && (forall k :: 0 <= k < |s.handed| ==>
                 l.delivered[k] < |l.accepted| && s.handed[k] == l.accepted[l.delivered[k]])
            && (forall i: nat :: i < |l.accepted| ==> (i in l.delivered <==> i !in l.displaced))
  {
    EveryRun(s0, es);
    SingleConsumer(s0, es, c);
    HistoryRefinement(s0.capacity, After(s0, es).value.ops);
  }
}
