/**
 From calls to critical sections and back, over the step system of module Handoff: no run makes up an operation or
 forgets one, and a call that gets the mutex has its effect. These are the laws that tie the recorded history to what
 the threads asked for.
 */
module Calls {
  import opened Wrappers
  import opened BoundedQueue
  import opened Handoff

  // ---------- Conservation ----------

  /** How many push calls were begun with item x. */
  ghost function Asked<T>(es: seq<Event<T>>, x: T): nat {
    if es == [] then 0
    else Asked(es[..|es| - 1], x) + if es[|es| - 1].BeginPush? && es[|es| - 1].item == x then 1 else 0
  }

  /** How many push critical sections were completed with item x. */
  ghost function Entered<T>(ops: seq<Op<T>>, x: T): nat {
    if ops == [] then 0
    else Entered(ops[..|ops| - 1], x) + if ops[|ops| - 1].PushOp? && ops[|ops| - 1].item == x then 1 else 0
  }

  /** The thread is still to enter x. */
  ghost predicate IsEntering<T>(p: Pc<T>, x: T) {
    (p.PushEntry? || p.PushLocked?) && p.item == x
  }

  ghost function Entering<T>(pcs: seq<Pc<T>>, x: T): nat {
    if pcs == [] then 0 else (if IsEntering(pcs[0], x) then 1 else 0) + Entering(pcs[1..], x)
  }

  /** The thread has popped x and is handling it. */
  ghost predicate HasInHand<T>(p: Pc<T>, x: T) {
    p.Handling? && p.item == x
  }

  ghost function InHand<T>(pcs: seq<Pc<T>>, x: T): nat {
    if pcs == [] then 0 else (if HasInHand(pcs[0], x) then 1 else 0) + InHand(pcs[1..], x)
  }

  function ClosesAsked<T>(es: seq<Event<T>>): nat {
    if es == [] then 0 else ClosesAsked(es[..|es| - 1]) + if es[|es| - 1].BeginClose? then 1 else 0
  }

  function ClosesEntered<T>(ops: seq<Op<T>>): nat {
    if ops == [] then 0 else ClosesEntered(ops[..|ops| - 1]) + if ops[|ops| - 1].CloseOp? then 1 else 0
  }

  predicate IsClosing<T>(p: Pc<T>) {
    p.CloseEntry? || p.CloseLocked?
  }

  function Closing<T>(pcs: seq<Pc<T>>): nat {
    if pcs == [] then 0 else (if IsClosing(pcs[0]) then 1 else 0) + Closing(pcs[1..])
  }

  function One(yes: bool): nat {
    if yes then 1 else 0
  }

  lemma {:induction false} ThreadMoves<T>(pcs: seq<Pc<T>>, t: nat, p: Pc<T>, x: T)
    requires t < |pcs|
    ensures Entering(pcs[t := p], x) + One(IsEntering(pcs[t], x)) == Entering(pcs, x) + One(IsEntering(p, x))
    ensures InHand(pcs[t := p], x) + One(HasInHand(pcs[t], x)) == InHand(pcs, x) + One(HasInHand(p, x))
    ensures Closing(pcs[t := p]) + One(IsClosing(pcs[t])) == Closing(pcs) + One(IsClosing(p))
  {
    if t == 0 {
      assert pcs[t := p][1..] == pcs[1..];
    } else {
      assert pcs[t := p][1..] == pcs[1..][t - 1 := p];
      ThreadMoves(pcs[1..], t - 1, p, x);
    }
  }

  lemma {:induction false} WakingMovesNothing<T>(pcs: seq<Pc<T>>, x: T)
    ensures Entering(WakeAll(pcs), x) == Entering(pcs, x)
    ensures InHand(WakeAll(pcs), x) == InHand(pcs, x)
    ensures Closing(WakeAll(pcs)) == Closing(pcs)
  {
    if pcs != [] {
      assert WakeAll(pcs)[1..] == WakeAll(pcs[1..]);
      WakingMovesNothing(pcs[1..], x);
    }
  }

  lemma {:induction false} NothingMoves<T>(pcs: seq<Pc<T>>, x: T)
    requires forall t :: 0 <= t < |pcs| ==> pcs[t].Outside? || pcs[t].PopEntry?
    ensures Entering(pcs, x) == 0 && InHand(pcs, x) == 0 && Closing(pcs) == 0
  {
    if pcs != [] {
      NothingMoves(pcs[1..], x);
    }
  }

  lemma OpSnoc<T>(ops: seq<Op<T>>, op: Op<T>, x: T)
    ensures Entered(ops + [op], x) == Entered(ops, x) + One(op.PushOp? && op.item == x)
    ensures ClosesEntered(ops + [op]) == ClosesEntered(ops) + One(op.CloseOp?)
  {
    assert (ops + [op])[..|ops + [op]| - 1] == ops;
  }

  /** What was asked for is what has entered and what is on its way; what was popped is handled or in hand. */
  ghost predicate Conserved<T>(s: State<T>, x: T, pushes: nat, closes: nat) {
    && 1 <= s.capacity
    && pushes == Entered(s.ops, x) + Entering(s.pcs, x)
    && closes == ClosesEntered(s.ops) + Closing(s.pcs)
    && multiset(Returned(s.capacity, s.ops))[x] == multiset(s.handed)[x] + InHand(s.pcs, x)
  }

  lemma ReturnedMore<T>(capacity: nat, ops: seq<Op<T>>, op: Op<T>, x: T)
    requires 1 <= capacity
    ensures var r := Pop(Exec(capacity, ops).queue);
            multiset(Returned(capacity, ops + [op]))[x] ==
            multiset(Returned(capacity, ops))[x] + One(op.PopOp? && r.Item? && r.value == x)
  {
    ExecSnoc(capacity, ops, op);
  }

  lemma ReleaseConserves<T>(s: State<T>, s': State<T>, t: nat, op: Op<T>, p': Pc<T>, x: T, pushes: nat, closes: nat)
    requires Inv(s) && t < |s.pcs| && InCriticalSection(s.pcs[t]) && Conserved(s, x, pushes, closes)
    requires s' == Release(s, t, op, p')
    requires IsEntering(s.pcs[t], x) <==> op.PushOp? && op.item == x
    requires IsClosing(s.pcs[t]) <==> op.CloseOp?
    requires !IsEntering(p', x) && !IsClosing(p')
    requires var r := Pop(s.ledger.queue); HasInHand(p', x) <==> op.PopOp? && r.Item? && r.value == x
    ensures Conserved(s', x, pushes, closes)
  {
    ThreadMoves(s.pcs, t, p', x);
    OpSnoc(s.ops, op, x);
    ReturnedMore(s.capacity, s.ops, op, x);
  }

  /** One thread moves outside any critical section. */
  lemma MoveConserves<T>(s: State<T>, s': State<T>, t: nat, p': Pc<T>, x: T, pushes: nat, closes: nat,
                         pushes': nat, closes': nat)
    requires Conserved(s, x, pushes, closes) && t < |s.pcs| && s'.pcs == s.pcs[t := p']
    requires s'.capacity == s.capacity && s'.ops == s.ops
    requires pushes' + One(IsEntering(s.pcs[t], x)) == pushes + One(IsEntering(p', x))
    requires closes' + One(IsClosing(s.pcs[t])) == closes + One(IsClosing(p'))
    requires multiset(s'.handed)[x] + One(HasInHand(p', x)) ==
             multiset(s.handed)[x] + One(HasInHand(s.pcs[t], x))
    ensures Conserved(s', x, pushes', closes')
  {
    ThreadMoves(s.pcs, t, p', x);
  }

  lemma TakeConserves<T>(s: State<T>, s': State<T>, t: nat, y: T, x: T, pushes: nat, closes: nat)
    requires Inv(s) && t < |s.pcs| && (s.pcs[t].PopLocked? || s.pcs[t].WokenLocked?)
    requires Conserved(s, x, pushes, closes) && Pop(s.ledger.queue) == Item(y)
    requires s' == Release(s, t, PopOp, Handling(y))
    ensures Conserved(s', x, pushes, closes)
  {
    ReleaseConserves(s, s', t, PopOp, Handling(y), x, pushes, closes);
  }

  lemma SleepConserves<T>(s: State<T>, s': State<T>, t: nat, x: T, pushes: nat, closes: nat)
    requires t < |s.pcs| && (s.pcs[t].PopLocked? || s.pcs[t].WokenLocked?) && Conserved(s, x, pushes, closes)
    requires s' == s.(pcs := s.pcs[t := Asleep], holder := None)
    ensures Conserved(s', x, pushes, closes)
  {
    MoveConserves(s, s', t, Asleep, x, pushes, closes, pushes, closes);
  }

  lemma PopConserves<T>(s: State<T>, s': State<T>, t: nat, x: T, pushes: nat, closes: nat)
    requires Inv(s) && t < |s.pcs| && (s.pcs[t].PopLocked? || s.pcs[t].WokenLocked?)
    requires Conserved(s, x, pushes, closes) && s' == BodyStep(s, t)
    ensures Conserved(s', x, pushes, closes)
  {
    match Pop(s.ledger.queue)
    case Item(y) => TakeConserves(s, s', t, y, x, pushes, closes);
    case Drained => ReleaseConserves(s, s', t, PopOp, Exited, x, pushes, closes);
    case MustWait => SleepConserves(s, s', t, x, pushes, closes);
  }

  lemma PushConserves<T>(s: State<T>, s': State<T>, t: nat, x: T, pushes: nat, closes: nat)
    requires Inv(s) && t < |s.pcs| && s.pcs[t].PushLocked? && Conserved(s, x, pushes, closes)
    requires s' == BodyStep(s, t)
    ensures Conserved(s', x, pushes, closes)
  {
    var op := PushOp(s.pcs[t].item);
    ReleaseConserves(s, s', t, op, if s.ledger.queue.closed then Outside else PushNotify, x, pushes, closes);
  }

  lemma BodyConserves<T>(s: State<T>, s': State<T>, t: nat, x: T, pushes: nat, closes: nat)
    requires Inv(s) && t < |s.pcs| && InCriticalSection(s.pcs[t]) && Conserved(s, x, pushes, closes)
    requires s' == BodyStep(s, t)
    ensures Conserved(s', x, pushes, closes)
  {
    if s.pcs[t].PushLocked? {
      PushConserves(s, s', t, x, pushes, closes);
    } else if s.pcs[t].CloseLocked? {
      ReleaseConserves(s, s', t, CloseOp, CloseNotify, x, pushes, closes);
    } else {
      PopConserves(s, s', t, x, pushes, closes);
    }
  }

  lemma NotifyOneConserves<T>(s: State<T>, s': State<T>, t: nat, w: nat, x: T, pushes: nat, closes: nat)
    requires Conserved(s, x, pushes, closes) && t < |s.pcs| && w < |s.pcs|
    requires s.pcs[t].PushNotify? && s.pcs[w].Asleep?
    requires s' == s.(pcs := s.pcs[t := Outside][w := Woken])
    ensures Conserved(s', x, pushes, closes)
  {
    ThreadMoves(s.pcs, t, Outside, x);
    ThreadMoves(s.pcs[t := Outside], w, Woken, x);
  }

  lemma NotifyAllConserves<T>(s: State<T>, s': State<T>, t: nat, x: T, pushes: nat, closes: nat)
    requires Conserved(s, x, pushes, closes) && t < |s.pcs| && s.pcs[t].CloseNotify?
    requires s' == s.(pcs := WakeAll(s.pcs[t := Outside]))
    ensures Conserved(s', x, pushes, closes)
  {
    ThreadMoves(s.pcs, t, Outside, x);
    WakingMovesNothing(s.pcs[t := Outside], x);
  }

  lemma BeginConserves<T>(s: State<T>, s': State<T>, e: Event<T>, x: T, pushes: nat, closes: nat)
    requires Enabled(s, e) && Conserved(s, x, pushes, closes) && s' == Step(s, e)
    requires e.BeginPush? || e.BeginClose? || e.BeginPop?
    ensures Conserved(s', x, pushes + One(e.BeginPush? && e.item == x), closes + One(e.BeginClose?))
  {
    match e
    case BeginPush(t, y) =>
      MoveConserves(s, s', t, PushEntry(y), x, pushes, closes, pushes + One(y == x), closes);
    case BeginClose(t) =>
      MoveConserves(s, s', t, CloseEntry, x, pushes, closes, pushes, closes + 1);
    case BeginPop(t) =>
      MoveConserves(s, s', t, PopEntry, x, pushes, closes, pushes, closes);
  }

  lemma HandlerConserves<T>(s: State<T>, s': State<T>, t: nat, x: T, pushes: nat, closes: nat)
    requires Conserved(s, x, pushes, closes) && t < |s.pcs| && s.pcs[t].Handling?
    requires s' == s.(pcs := s.pcs[t := PopEntry], handed := s.handed + [s.pcs[t].item])
    ensures Conserved(s', x, pushes, closes)
  {
    MoveConserves(s, s', t, PopEntry, x, pushes, closes, pushes, closes);
  }

  lemma QuietConserves<T>(s: State<T>, s': State<T>, e: Event<T>, x: T, pushes: nat, closes: nat)
    requires Enabled(s, e) && Conserved(s, x, pushes, closes) && s' == Step(s, e)
    requires e.Acquire? || e.SpuriousWakeup? || (e.NotifyOne? && e.sleeper.None?)
    ensures Conserved(s', x, pushes, closes)
  {
    match e
    case Acquire(t) => MoveConserves(s, s', t, Locked(s.pcs[t]), x, pushes, closes, pushes, closes);
    case SpuriousWakeup(t) => MoveConserves(s, s', t, Woken, x, pushes, closes, pushes, closes);
    case NotifyOne(t, _) => MoveConserves(s, s', t, Outside, x, pushes, closes, pushes, closes);
  }

  lemma StepConserves<T>(s: State<T>, s': State<T>, e: Event<T>, x: T, pushes: nat, closes: nat)
    requires Inv(s) && Enabled(s, e) && Conserved(s, x, pushes, closes) && s' == Step(s, e)
    ensures Conserved(s', x, pushes + One(e.BeginPush? && e.item == x), closes + One(e.BeginClose?))
  {
    if e.Body? {
      BodyConserves(s, s', e.t, x, pushes, closes);
    } else if e.NotifyOne? && e.sleeper.Some? {
      NotifyOneConserves(s, s', e.t, e.sleeper.value, x, pushes, closes);
    } else if e.NotifyAll? {
      NotifyAllConserves(s, s', e.t, x, pushes, closes);
    } else if e.HandlerReturns? {
      HandlerConserves(s, s', e.t, x, pushes, closes);
    } else if e.BeginPush? || e.BeginClose? || e.BeginPop? {
      BeginConserves(s, s', e, x, pushes, closes);
    } else {
      QuietConserves(s, s', e, x, pushes, closes);
    }
  }

  /**
   No call is made up, lost or entered twice, over every run and for every item: pushes begun are pushes entered
   and pushes on their way in, closes likewise, and pops that returned are handler calls finished and running.
   */
  lemma {:induction false} CallsAreConserved<T>(s0: State<T>, es: seq<Event<T>>, x: T)
    requires Initial(s0) && After(s0, es).Some?
    ensures var s := After(s0, es).value;
            && Asked(es, x) == Entered(s.ops, x) + Entering(s.pcs, x)
            && ClosesAsked(es) == ClosesEntered(s.ops) + Closing(s.pcs)
            && multiset(Returned(s.capacity, s.ops))[x] == multiset(s.handed)[x] + InHand(s.pcs, x)
  {
    if es == [] {
      NothingMoves(s0.pcs, x);
    } else {
      var before, e := es[..|es| - 1], es[|es| - 1];
      CallsAreConserved(s0, before, x);
      EveryRun(s0, before);
      StepConserves(After(s0, before).value, After(s0, es).value, e, x, Asked(before, x), ClosesAsked(before));
    }
  }

  // ---------- Effect ----------

  /** A queue can be started with any threads. */
  lemma AnyStart<T>(capacity: nat, pcs: seq<Pc<T>>)
    requires 1 <= capacity && forall t :: 0 <= t < |pcs| ==> pcs[t].Outside? || pcs[t].PopEntry?
    ensures Initial(State(capacity, pcs, None, Empty(), [], []))
  {
  }

  lemma OneStep<T>(s: State<T>, e: Event<T>)
    requires 1 <= s.capacity
    ensures After(s, [e]) == if Enabled(s, e) then Some(Step(s, e)) else None
  {
    AfterSnoc(s, [], e);
    assert [] + [e] == [e];
  }

  /** Events one after the other. */
  lemma ThreeSteps<T>(s: State<T>, a: Event<T>, b: Event<T>, c: Event<T>)
    requires 1 <= s.capacity && Enabled(s, a) && Enabled(Step(s, a), b) && Enabled(Step(Step(s, a), b), c)
    ensures After(s, [a, b, c]) == Some(Step(Step(Step(s, a), b), c))
  {
    OneStep(s, a);
    AfterSnoc(s, [a], b);
    AfterSnoc(s, [a, b], c);
    assert [a] + [b] == [a, b] && [a, b] + [c] == [a, b, c];
  }

  /** A push that gets the mutex: accepted on an open queue, with a notification to send; refused on a closed one. */
  lemma PushTakesEffect<T>(s: State<T>, t: nat, x: T)
    requires 1 <= s.capacity && t < |s.pcs| && s.pcs[t].Outside? && s.holder.None?
    ensures var r := After(s, [BeginPush(t, x), Acquire(t), Body(t)]);
            && r.Some? && r.value.holder.None?
            && r.value.ledger.accepted == s.ledger.accepted + (if s.ledger.queue.closed then [] else [x])
            && r.value.pcs == s.pcs[t := if s.ledger.queue.closed then Outside else PushNotify]
            && r.value.ledger.delivered == s.ledger.delivered && r.value.handed == s.handed
            && (s.ledger.queue.closed ==> r.value.ledger == s.ledger)
  {
    ThreeSteps(s, BeginPush(t, x), Acquire(t), Body(t));
  }

  /** A close that gets the mutex: the queue is closed, everything in it stays, and everybody is yet to be told. */
  lemma CloseTakesEffect<T>(s: State<T>, t: nat)
    requires 1 <= s.capacity && t < |s.pcs| && s.pcs[t].Outside? && s.holder.None?
    ensures var r := After(s, [BeginClose(t), Acquire(t), Body(t)]);
            && r.Some? && r.value.holder.None?
            && r.value.ledger.queue.closed && r.value.ledger.queue.items == s.ledger.queue.items
            && r.value.ledger.accepted == s.ledger.accepted && r.value.ledger.delivered == s.ledger.delivered
            && r.value.pcs == s.pcs[t := CloseNotify]
  {
    ThreeSteps(s, BeginClose(t), Acquire(t), Body(t));
  }

  /** Where a pop that gets the mutex leads: the front item in hand, out of the loop, or asleep. */
  ghost predicate PopOutcome<T>(s: State<T>, s': State<T>, t: nat)
    requires t < |s.pcs|
  {
    var q, q' := s.ledger.queue, s'.ledger.queue;
    && s'.holder.None? && s'.ledger.accepted == s.ledger.accepted && s'.handed == s.handed
    && (if q.items != [] then s'.pcs == s.pcs[t := Handling(q.items[0])] && q'.items == q.items[1..]
        else q' == q && s'.pcs == s.pcs[t := if q.closed then Exited else Asleep])
  }

  lemma PopBody<T>(s: State<T>, t: nat)
    requires 1 <= s.capacity && t < |s.pcs| && (s.pcs[t].PopLocked? || s.pcs[t].WokenLocked?)
    ensures PopOutcome(s, Step(s, Body(t)), t)
  {
  }

  /** Thread t, about to take the free mutex for a pop, takes it and goes through. */
  lemma PopGoesThrough<T>(s: State<T>, e: Event<T>, t: nat)
    requires 1 <= s.capacity && Enabled(s, e) && t < |s.pcs|
    requires var m := Step(s, e); |m.pcs| == |s.pcs| && m.holder.None? && (m.pcs[t].PopEntry? || m.pcs[t].Woken?)
    ensures var r := After(s, [e, Acquire(t), Body(t)]); r.Some? && PopOutcome(Step(s, e), r.value, t)
  {
    var m := Step(s, e);
    var n := Step(m, Acquire(t));
    PopBody(n, t);
    SameOutcome(m, n, Step(n, Body(t)), t);
    ThreeSteps(s, e, Acquire(t), Body(t));
  }

  /** The outcome does not depend on how the thread came to hold the mutex. */
  lemma SameOutcome<T>(m: State<T>, n: State<T>, r: State<T>, t: nat)
    requires t < |m.pcs| == |n.pcs| && n.pcs == m.pcs[t := n.pcs[t]]
    requires n.ledger == m.ledger && n.handed == m.handed && PopOutcome(n, r, t)
    ensures PopOutcome(m, r, t)
  {
    var p := r.pcs[t];
    assert m.pcs[t := p] == n.pcs[t := p];
  }

  lemma PopTakesEffect<T>(s: State<T>, t: nat)
    requires 1 <= s.capacity && t < |s.pcs| && s.pcs[t].Outside? && s.holder.None?
    ensures var r := After(s, [BeginPop(t), Acquire(t), Body(t)]); r.Some? && PopOutcome(s, r.value, t)
  {
    PopGoesThrough(s, BeginPop(t), t);
  }

  /** A sleeper woken spuriously looks again, and goes back to sleep unless it has a reason not to. */
  lemma SpuriousWakeupIsHarmless<T>(s: State<T>, c: nat)
    requires 1 <= s.capacity && c < |s.pcs| && s.pcs[c].Asleep? && s.holder.None?
    ensures var r := After(s, [SpuriousWakeup(c), Acquire(c), Body(c)]); r.Some? && PopOutcome(s, r.value, c)
  {
    PopGoesThrough(s, SpuriousWakeup(c), c);
  }

  /** A notify_one that picks a sleeper, which then gets the mutex: it returns with the front item if there is one. */
  lemma NotifiedSleeperPops<T>(s: State<T>, t: nat, c: nat)
    requires 1 <= s.capacity && t < |s.pcs| && c < |s.pcs| && s.holder.None?
    requires s.pcs[t].PushNotify? && s.pcs[c].Asleep?
    ensures var r := After(s, [NotifyOne(t, Some(c)), Acquire(c), Body(c)]);
            r.Some? && PopOutcome(s.(pcs := s.pcs[t := Outside]), r.value, c)
  {
    PopGoesThrough(s, NotifyOne(t, Some(c)), c);
  }

  /** A close wakes every sleeper: whichever is first to get the mutex pops or exits. */
  lemma ClosedSleeperWakes<T>(s: State<T>, t: nat, c: nat)
    requires 1 <= s.capacity && t < |s.pcs| && c < |s.pcs| && s.holder.None?
    requires s.pcs[t].CloseNotify? && s.pcs[c].Asleep?
    ensures !SomeoneAsleep(WakeAll(s.pcs[t := Outside]))
    ensures var r := After(s, [NotifyAll(t), Acquire(c), Body(c)]);
            r.Some? && PopOutcome(s.(pcs := WakeAll(s.pcs[t := Outside])), r.value, c)
  {
    PopGoesThrough(s, NotifyAll(t), c);
  }

  /** The handler returning logs its item and calls pop again. */
  lemma HandlerTakesEffect<T>(s: State<T>, c: nat)
    requires 1 <= s.capacity && c < |s.pcs| && s.pcs[c].Handling? && s.holder.None?
    ensures var r := After(s, [HandlerReturns(c), Acquire(c), Body(c)]);
            r.Some? && PopOutcome(s.(handed := s.handed + [s.pcs[c].item]), r.value, c)
  {
    PopGoesThrough(s, HandlerReturns(c), c);
  }

  // ---------- What the counters count ----------

  ghost function OwnAt<T>(c: nat, es: seq<Event<T>>): set<nat> {
    set i: nat | i < |es| && OwnMove(c, es[i])
  }

  ghost function InternalAt<T>(es: seq<Event<T>>): set<nat> {
    set i: nat | i < |es| && Internal(es[i])
  }

  lemma OwnAtSnoc<T>(c: nat, es: seq<Event<T>>, e: Event<T>)
    ensures |OwnAt(c, es + [e])| == |OwnAt(c, es)| + One(OwnMove(c, e))
  {
    var more := es + [e];
    forall i: nat ensures i in OwnAt(c, more) <==> i in OwnAt(c, es) || (OwnMove(c, e) && i == |es|) {
      assert i < |es| ==> more[i] == es[i];
    }
    assert OwnAt(c, more) == OwnAt(c, es) + if OwnMove(c, e) then {|es|} else {};
  }

  lemma InternalAtSnoc<T>(es: seq<Event<T>>, e: Event<T>)
    ensures |InternalAt(es + [e])| == |InternalAt(es)| + One(Internal(e))
  {
    var more := es + [e];
    forall i: nat ensures i in InternalAt(more) <==> i in InternalAt(es) || (Internal(e) && i == |es|) {
      assert i < |es| ==> more[i] == es[i];
    }
    assert InternalAt(more) == InternalAt(es) + if Internal(e) then {|es|} else {};
  }

  /** The bounds of module Handoff speak of numbers of events. */
  lemma {:induction false} MovesAreCounted<T>(c: nat, es: seq<Event<T>>)
    ensures OwnMoves(c, es) == |OwnAt(c, es)| && InternalSteps(es) == |InternalAt(es)|
  {
    if es != [] {
      MovesAreCounted(c, es[..|es| - 1]);
      OwnAtSnoc(c, es[..|es| - 1], es[|es| - 1]);
      InternalAtSnoc(es[..|es| - 1], es[|es| - 1]);
      assert es == es[..|es| - 1] + [es[|es| - 1]];
    }
  }
}
