/**
 The bounded drop-oldest queue of src/queue/BlockingQueue.hpp.

 `Push`, `Pop` and `Close` say what each critical section does to the protected fields. `Exec` runs them in
 lock order and keeps a history beside the queue: which items were accepted, which acceptance numbers were
 handed out and which were displaced. The theorems speak about every sequence of critical sections; module
 Handoff shows that every interleaving of threads is such a sequence.
 */
module BoundedQueue {
  import opened Wrappers

  /** `m_items`, `m_dropped` and `m_closed`: what the mutex protects. */
  datatype Queue<T> = Queue(items: seq<T>, dropped: nat, closed: bool)

  /** One pass of `pop` through the mutex: an item, `false`, or the wait predicate does not hold yet. */
  datatype Popped<T> = Item(value: T) | Drained | MustWait

  function Push<T>(capacity: nat, q: Queue<T>, item: T): Queue<T>
    requires 1 <= capacity
  {
    if q.closed then q
    else if |q.items| >= capacity then Queue(q.items[1..] + [item], q.dropped + 1, false)
    else q.(items := q.items + [item])
  }

  /** What `push` returns: false on displacement and on a closed queue alike. */
  predicate PushReturns<T>(capacity: nat, q: Queue<T>) {
    !q.closed && |q.items| < capacity
  }

  function Pop<T>(q: Queue<T>): Popped<T> {
    if q.items != [] then Item(q.items[0])
    else if q.closed then Drained
    else MustWait
  }

  function PopRest<T>(q: Queue<T>): Queue<T> {
    if q.items == [] then q else q.(items := q.items[1..])
  }

  function Close<T>(q: Queue<T>): Queue<T> {
    q.(closed := true)
  }

  // ---------- History ----------

  /** Acceptance numbers count the accepted items from 0. */
  datatype Ledger<T> = Ledger(queue: Queue<T>, accepted: seq<T>, delivered: seq<nat>, displaced: seq<nat>) {
    /** How many accepted items have left the queue: the acceptance number at the front. */
    function Head(): nat {
      |delivered| + |displaced|
    }
  }

  datatype Op<T> = PushOp(item: T) | PopOp | CloseOp

  function Empty<T>(): Ledger<T> {
    Ledger(Queue([], 0, false), [], [], [])
  }

  function Apply<T>(capacity: nat, l: Ledger<T>, op: Op<T>): Ledger<T>
    requires 1 <= capacity
  {
    match op
    case PushOp(item) =>
      if l.queue.closed then l
      else Ledger(Push(capacity, l.queue, item), l.accepted + [item], l.delivered,
                  if PushReturns(capacity, l.queue) then l.displaced else l.displaced + [l.Head()])
    case PopOp =>
      if Pop(l.queue).Item? then l.(queue := PopRest(l.queue), delivered := l.delivered + [l.Head()]) else l
    case CloseOp =>
      l.(queue := Close(l.queue))
  }

  function Exec<T>(capacity: nat, ops: seq<Op<T>>): Ledger<T>
    requires 1 <= capacity
  {
    if ops == [] then Empty()
    else Apply(capacity, Exec(capacity, ops[..|ops| - 1]), ops[|ops| - 1])
  }

  /** The values `pop` handed to its callers, oldest first. */
  function Returned<T>(capacity: nat, ops: seq<Op<T>>): seq<T>
    requires 1 <= capacity
  {
    if ops == [] then [] else
    var before := ops[..|ops| - 1];
    var r := Pop(Exec(capacity, before).queue);
    Returned(capacity, before) + if ops[|ops| - 1].PopOp? && r.Item? then [r.value] else []
  }

  lemma ExecSnoc<T>(capacity: nat, ops: seq<Op<T>>, op: Op<T>)
    requires 1 <= capacity
    ensures Exec(capacity, ops + [op]) == Apply(capacity, Exec(capacity, ops), op)
    ensures var r := Pop(Exec(capacity, ops).queue);
            Returned(capacity, ops + [op]) == Returned(capacity, ops) + if op.PopOp? && r.Item? then [r.value] else []
  {
    assert (ops + [op])[..|ops + [op]| - 1] == ops;
  }

  ghost predicate Increasing(s: seq<nat>) {
    forall i, j :: 0 <= i < j < |s| ==> s[i] < s[j]
  }

  /**
   The history and the queue agree: the queue is the suffix of the accepted items from `Head` on, and every
   acceptance number below `Head` was either delivered or displaced, never both, each log in order.
   */
  ghost predicate Balanced<T>(capacity: nat, l: Ledger<T>) {
    && |l.queue.items| <= capacity
    && l.queue.dropped == |l.displaced|
    && l.Head() <= |l.accepted|
    && l.queue.items == l.accepted[l.Head()..]
    && Increasing(l.delivered) && Increasing(l.displaced)
    && (forall i :: i in l.delivered || i in l.displaced ==> i < l.Head())
    && (forall i: nat :: i < l.Head() ==> (i in l.delivered <==> i !in l.displaced))
  }

  lemma ApplyKeepsBalance<T>(capacity: nat, l: Ledger<T>, op: Op<T>)
    requires 1 <= capacity && Balanced(capacity, l)
    ensures Balanced(capacity, Apply(capacity, l, op))
  {
    var r := Apply(capacity, l, op);
    assert forall k :: 0 <= k < |l.delivered| ==> l.delivered[k] in l.delivered;
    assert forall k :: 0 <= k < |l.displaced| ==> l.displaced[k] in l.displaced;
    match op
    case PushOp(item) =>
      if !l.queue.closed {
        assert r.queue.items == r.accepted[r.Head()..];
      }
    case PopOp =>
    case CloseOp =>
  }

  /** History refinement, over every sequence of critical sections. */
  lemma {:induction false} HistoryRefinement<T>(capacity: nat, ops: seq<Op<T>>)
    requires 1 <= capacity
    ensures Balanced(capacity, Exec(capacity, ops))
    ensures var l := Exec(capacity, ops);
            && |Returned(capacity, ops)| == |l.delivered|
            && forall k :: 0 <= k < |l.delivered| ==>
                 l.delivered[k] < |l.accepted| && Returned(capacity, ops)[k] == l.accepted[l.delivered[k]]
    ensures var l := Exec(capacity, ops);
            |l.accepted| == |Returned(capacity, ops)| + l.queue.dropped + |l.queue.items|
  {
    if ops != [] {
      var before, op := ops[..|ops| - 1], ops[|ops| - 1];
      HistoryRefinement(capacity, before);
      ApplyKeepsBalance(capacity, Exec(capacity, before), op);
    }
  }

  // ---------- Freshness ----------

  /** Critical section n accepts item i + capacity while item i is still queued. */
  ghost predicate Displaces<T>(capacity: nat, ops: seq<Op<T>>, n: nat, i: nat)
    requires 1 <= capacity && n < |ops|
  {
    var l := Exec(capacity, ops[..n]);
    ops[n].PushOp? && !l.queue.closed && |l.accepted| == i + capacity && l.Head() <= i
  }

  lemma DisplacedStep<T>(capacity: nat, l: Ledger<T>, op: Op<T>, i: nat)
    requires 1 <= capacity && Balanced(capacity, l)
    ensures i in Apply(capacity, l, op).displaced <==>
            || i in l.displaced
            || (op.PushOp? && !l.queue.closed && |l.accepted| == i + capacity && l.Head() <= i)
  {
    assert |l.queue.items| == |l.accepted| - l.Head();
  }

  /** An item is displaced exactly when the item `capacity` places behind it is accepted before it is popped. */
  lemma {:induction false} DisplacedExactly<T>(capacity: nat, ops: seq<Op<T>>, i: nat)
    requires 1 <= capacity
    ensures i in Exec(capacity, ops).displaced <==> exists n: nat :: n < |ops| && Displaces(capacity, ops, n, i)
  {
    if ops != [] {
      var last := |ops| - 1;
      var before := ops[..last];
      DisplacedExactly(capacity, before, i);
      HistoryRefinement(capacity, before);
      DisplacedStep(capacity, Exec(capacity, before), ops[last], i);
      assert forall n: nat :: n < last ==> before[..n] == ops[..n];
      assert forall n: nat :: n < last ==> (Displaces(capacity, before, n, i) <==> Displaces(capacity, ops, n, i));
      assert i in Exec(capacity, ops).displaced <==>
             i in Exec(capacity, before).displaced || Displaces(capacity, ops, last, i);
    }
  }

  /** At its pop a delivered item has fewer than `capacity` newer accepted items. */
  lemma DeliveredFresh<T>(capacity: nat, ops: seq<Op<T>>)
    requires 1 <= capacity
    requires Pop(Exec(capacity, ops).queue).Item?
    ensures var l := Exec(capacity, ops);
            && l.Head() < |l.accepted|
            && Pop(l.queue).value == l.accepted[l.Head()]
            && |l.accepted| - 1 - l.Head() < capacity
  {
    HistoryRefinement(capacity, ops);
  }

  /** The newest `capacity` items. */
  function Newest<T>(capacity: nat, items: seq<T>): seq<T> {
    if |items| <= capacity then items else items[|items| - capacity..]
  }

  lemma NewestSnoc<T>(capacity: nat, items: seq<T>, item: T)
    requires 1 <= capacity
    ensures Newest(capacity, items + [item]) ==
            (if |items| < capacity then items else Newest(capacity, items)[1..]) + [item]
    ensures |Newest(capacity, items)| == if |items| <= capacity then |items| else capacity
  {
  }

  /** A push-only run accepts everything, holds exactly the newest `capacity` items, and counts the rest. */
  lemma {:induction false} PushOnly<T>(capacity: nat, ops: seq<Op<T>>)
    requires 1 <= capacity && forall i :: 0 <= i < |ops| ==> ops[i].PushOp?
    ensures var l := Exec(capacity, ops);
            && |l.accepted| == |ops| && (forall i :: 0 <= i < |ops| ==> l.accepted[i] == ops[i].item)
            && l.queue.items == Newest(capacity, l.accepted)
            && l.queue.dropped == |l.accepted| - |l.queue.items|
            && !l.queue.closed
  {
    if ops != [] {
      PushOnly(capacity, ops[..|ops| - 1]);
      PushOnlyStep(capacity, Exec(capacity, ops[..|ops| - 1]), ops[|ops| - 1].item);
    }
  }

  lemma PushOnlyStep<T>(capacity: nat, l: Ledger<T>, item: T)
    requires 1 <= capacity && !l.queue.closed
    requires l.queue.items == Newest(capacity, l.accepted) && l.queue.dropped == |l.accepted| - |l.queue.items|
    ensures var r := Apply(capacity, l, PushOp(item));
            && r.accepted == l.accepted + [item] && !r.queue.closed
            && r.queue.items == Newest(capacity, r.accepted)
            && r.queue.dropped == |r.accepted| - |r.queue.items|
  {
    NewestSnoc(capacity, l.accepted, item);
  }

  /** Nothing is accepted once the queue is closed, and it stays closed. */
  lemma {:induction false} ClosedForGood<T>(capacity: nat, before: seq<Op<T>>, after: seq<Op<T>>)
    requires 1 <= capacity
    requires Exec(capacity, before).queue.closed
    ensures var l, l' := Exec(capacity, before), Exec(capacity, before + after);
            && l'.queue.closed
            && l'.accepted == l.accepted && l'.displaced == l.displaced
            && |l'.queue.items| <= |l.queue.items|
  {
    if after == [] {
      assert before + after == before;
    } else {
      var rest := after[..|after| - 1];
      ClosedForGood(capacity, before, rest);
      assert before + after == before + rest + [after[|after| - 1]];
      ExecSnoc(capacity, before + rest, after[|after| - 1]);
    }
  }

  lemma DropThenAppend<T>(items: seq<T>, item: T)
    requires items != []
    ensures items[1..] + [item] == (items + [item])[1..]
  {
  }

  // ---------- The class ----------

  class BlockingQueue<T> {
    const capacity: nat
    var items: seq<T>
    var dropped: nat
    var closed: bool
    /** The critical sections entered so far, in lock order. */
    ghost var ops: seq<Op<T>>

    ghost predicate Valid()
      reads this
    {
      1 <= capacity && Exec(capacity, ops).queue == Queue(items, dropped, closed)
    }

    constructor (capacity: nat)
      requires 1 <= capacity
      ensures Valid() && this.capacity == capacity && ops == []
      ensures items == [] && dropped == 0 && !closed
    {
      this.capacity := capacity;
      items, dropped, closed := [], 0, false;
      ops := [];
    }

    method Push(item: T) returns (ok: bool)
      requires Valid()
      modifies this
      ensures Valid() && ops == old(ops) + [PushOp(item)]
      ensures closed == old(closed)
      ensures ok <==> !old(closed) && |old(items)| < capacity
      ensures ok == PushReturns(capacity, Queue(old(items), old(dropped), old(closed)))
      ensures old(closed) ==> items == old(items) && dropped == old(dropped)
      ensures !old(closed) ==>
                && items == (old(items) + [item])[(if ok then 0 else 1)..]
                && dropped == old(dropped) + if ok then 0 else 1
    {
      ExecSnoc(capacity, ops, PushOp(item));
      if items != [] {
        DropThenAppend(items, item);
      }
      ops := ops + [PushOp(item)];
      var displaced := false;
      if closed {
        return false;
      }
      if |items| >= capacity {
        items := items[1..];
        dropped := dropped + 1;
        displaced := true;
      }
      items := items + [item];
      return !displaced;
    }

    /** One pass of `pop` through the mutex; on `MustWait` the caller is left asleep and nothing has changed. */
    method Pop() returns (r: Popped<T>)
      requires Valid()
      modifies this
      ensures Valid() && ops == old(ops) + [PopOp]
      ensures dropped == old(dropped) && closed == old(closed)
      ensures r.Item? <==> old(items) != []
      ensures r.Item? ==> r.value == old(items)[0] && items == old(items)[1..]
      ensures !r.Item? ==> items == [] && (r.Drained? <==> closed)
      ensures Returned(capacity, ops) == Returned(capacity, old(ops)) + if r.Item? then [r.value] else []
    {
      ExecSnoc(capacity, ops, PopOp);
      ops := ops + [PopOp];
      if items == [] && !closed {
        return MustWait;
      }
      if items == [] {
        return Drained;
      }
      r := Item(items[0]);
      items := items[1..];
    }

    method Close()
      requires Valid()
      modifies this
      ensures Valid() && ops == old(ops) + [CloseOp]
      ensures closed && items == old(items) && dropped == old(dropped)
      ensures Returned(capacity, ops) == Returned(capacity, old(ops))
    {
      ExecSnoc(capacity, ops, CloseOp);
      ops := ops + [CloseOp];
      closed := true;
    }

    /** The exported counters mean what the history says. */
    method Dropped() returns (n: nat)
      requires Valid()
      ensures n == dropped == |Exec(capacity, ops).displaced|
    {
      HistoryRefinement(capacity, ops);
      n := dropped;
    }

    method Size() returns (n: nat)
      requires Valid()
      ensures n == |items| <= capacity
      ensures n == |Exec(capacity, ops).accepted| - |Returned(capacity, ops)| - dropped
    {
      HistoryRefinement(capacity, ops);
      n := |items|;
    }
  }
}
