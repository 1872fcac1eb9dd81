/**
 The sink of src/marketdata/QueueSink.hpp: a queue, a consumer thread running `consume`, and a handler.

 The handler is opaque; `handed` is the log of its calls. `Consume` is the consumer thread's loop up to the point
 where it would sleep (it returns false) or leaves the loop (it returns true). Which interleavings are possible is
 the subject of module Handoff.
 */
module Sink {
  import opened BoundedQueue

  lemma MoveOver<T>(front: seq<T>, items: seq<T>)
    requires items != []
    ensures front + [items[0]] + items[1..] == front + items
  {
  }

  /** The items of s are those of `from` at these places, in order, none twice. */
  ghost predicate Picks<T>(s: seq<T>, from: seq<T>, at: seq<nat>) {
    && |at| == |s| && Increasing(at)
    && forall k :: 0 <= k < |at| ==> at[k] < |from| && s[k] == from[at[k]]
  }

  lemma PicksMore<T>(s: seq<T>, from: seq<T>, at: seq<nat>, x: T)
    requires Picks(s, from, at)
    ensures Picks(s, from + [x], at) && Picks(s + [x], from + [x], at + [|from|])
  {
  }

  lemma {:induction false} IncreasingBelow(at: seq<nat>, n: nat)
    requires Increasing(at) && forall k :: 0 <= k < |at| ==> at[k] < n
    ensures |at| <= n
    ensures |at| == n ==> forall k :: 0 <= k < n ==> at[k] == k
  {
    if at != [] {
      var rest := at[..|at| - 1];
      IncreasingBelow(rest, at[|at| - 1]);
      assert forall k :: 0 <= k < |rest| ==> rest[k] == at[k];
    }
  }

  /** Picking as many as there are is picking all of them. */
  lemma PicksAll<T>(s: seq<T>, from: seq<T>, at: seq<nat>)
    requires Picks(s, from, at) && |s| == |from|
    ensures s == from
  {
    IncreasingBelow(at, |from|);
  }

  /** What becomes of the process when `start` assigns the thread. */
  datatype Started = Running | Terminated

  class QueueSink<T> {
    const queue: BlockingQueue<T>
    var joinable: bool
    var hasHandler: bool
    var handed: seq<T>
    /** Which of the popped items were handed over. */
    ghost var heard: seq<nat>
    /** Items popped while no handler was set: they are neither handed over nor counted as dropped. */
    ghost var unheard: nat

    ghost predicate Valid()
      reads this, queue
    {
      && queue.Valid()
      && |handed| + unheard == |Returned(queue.capacity, queue.ops)|
      && Picks(handed, Returned(queue.capacity, queue.ops), heard)
    }

    /** The items accepted so far. */
    ghost function Accepted(): seq<T>
      reads this, queue
      requires Valid()
    {
      Exec(queue.capacity, queue.ops).accepted
    }

    constructor (capacity: nat)
      requires 1 <= capacity
      ensures Valid() && fresh(queue) && queue.capacity == capacity
      ensures !joinable && handed == [] && unheard == 0 && Accepted() == []
      ensures queue.items == [] && queue.dropped == 0 && !queue.closed
    {
      queue := new BlockingQueue<T>(capacity);
      joinable, hasHandler, handed, unheard, heard := false, false, [], 0, [];
    }

    /** Assigning over a std::thread that is still joinable terminates the process. */
    method Start(withHandler: bool) returns (r: Started)
      requires Valid()
      modifies this
      ensures r.Terminated? <==> old(joinable)
      ensures Valid() && joinable && hasHandler == withHandler
      ensures handed == old(handed) && heard == old(heard) && unheard == old(unheard)
    {
      hasHandler := withHandler;
      if joinable {
        return Terminated;
      }
      joinable := true;
      return Running;
    }

    method OnTick(tick: T)
      requires Valid()
      modifies queue
      ensures Valid()
      ensures Accepted() == if old(queue.closed) then old(Accepted()) else old(Accepted()) + [tick]
      ensures queue.closed == old(queue.closed)
      ensures old(queue.closed) ==> queue.items == old(queue.items) && queue.dropped == old(queue.dropped)
      ensures !old(queue.closed) ==>
                var full := |old(queue.items)| >= queue.capacity;
                && queue.items == (old(queue.items) + [tick])[(if full then 1 else 0)..]
                && queue.dropped == old(queue.dropped) + if full then 1 else 0
    {
      ExecSnoc(queue.capacity, queue.ops, PushOp(tick));
      var ok := queue.Push(tick);
    }

    /** One turn of the loop of `consume`: pop, and give the item to the handler if there is one. */
    method Turn() returns (r: Popped<T>)
      requires Valid()
      modifies this, queue
      ensures Valid() && Accepted() == old(Accepted())
      ensures queue.dropped == old(queue.dropped) && queue.closed == old(queue.closed)
      ensures joinable == old(joinable) && hasHandler == old(hasHandler)
      ensures r.Item? <==> old(queue.items) != []
      ensures r.Item? ==>
                && r.value == old(queue.items)[0] && queue.items == old(queue.items)[1..]
                && handed == old(handed) + (if hasHandler then [r.value] else [])
                && unheard == old(unheard) + (if hasHandler then 0 else 1)
      ensures !r.Item? ==>
                && queue.items == [] && handed == old(handed) && unheard == old(unheard)
                && (r.Drained? <==> queue.closed)
    {
      ghost var popped := Returned(queue.capacity, queue.ops);
      ExecSnoc(queue.capacity, queue.ops, PopOp);
      r := queue.Pop();
      if r.Item? {
        PicksMore(handed, popped, heard, r.value);
        if hasHandler {
          handed := handed + [r.value];
          heard := heard + [|popped|];
        } else {
          unheard := unheard + 1;
        }
      }
    }

    /** The loop of `consume`: hands over everything queued, then exits if the queue is closed. */
    method Consume() returns (exited: bool)
      requires Valid()
      modifies this, queue
      ensures Valid() && queue.items == [] && (exited <==> queue.closed)
      ensures handed == old(handed) + if hasHandler then old(queue.items) else []
      ensures unheard == old(unheard) + if hasHandler then 0 else |old(queue.items)|
      ensures Accepted() == old(Accepted()) && queue.dropped == old(queue.dropped)
      ensures queue.closed == old(queue.closed) && joinable == old(joinable) && hasHandler == old(hasHandler)
    {
      ghost var start, accepted := Pending(), Accepted();
      while true
        invariant Valid() && Accepted() == accepted
        invariant queue.dropped == old(queue.dropped) && queue.closed == old(queue.closed)
        invariant joinable == old(joinable) && hasHandler == old(hasHandler)
        invariant handed + Pending() == old(handed) + start
        invariant unheard + (if hasHandler then 0 else |queue.items|) ==
                  old(unheard) + if hasHandler then 0 else |old(queue.items)|
        decreases |queue.items|
      {
        if queue.items != [] {
          MoveOver(handed, queue.items);
        }
        var r := Turn();
        if !r.Item? {
          return r.Drained?;
        }
      }
    }

    /** What the handler is still to be given of the queue. */
    ghost function Pending(): seq<T>
      reads this, queue
    {
      if hasHandler then queue.items else []
    }

    /**
     `stop`: close, then join if a consumer was started. Everything still queued is handed over first. Nothing is
     lost unless no consumer was there to take it or no handler to hear it.
     */
    method Stop()
      requires Valid()
      modifies this, queue
      ensures Valid() && queue.closed && !joinable && hasHandler == old(hasHandler)
      ensures Accepted() == old(Accepted()) && queue.dropped == old(queue.dropped)
      ensures queue.items == if old(joinable) then [] else old(queue.items)
      ensures handed == old(handed) + if old(joinable) && hasHandler then old(queue.items) else []
      ensures unheard == old(unheard) + if old(joinable) && !hasHandler then |old(queue.items)| else 0
      ensures |handed| + queue.dropped == |Accepted()| <==>
              && old(unheard) == 0
              && (old(queue.items) == [] || (old(joinable) && hasHandler))
      ensures unheard == 0 ==> handed == Returned(queue.capacity, queue.ops)
    {
      ExecSnoc(queue.capacity, queue.ops, CloseOp);
      queue.Close();
      if joinable {
        var exited := Consume();
        joinable := false;
      }
      HistoryRefinement(queue.capacity, queue.ops);
      if unheard == 0 {
        PicksAll(handed, Returned(queue.capacity, queue.ops), heard);
      }
    }
  }

  /** With an empty handler a tick is accepted, popped and gone: not handed over, and not counted as dropped. */
  method SilentSink<T>(capacity: nat, tick: T) returns (sink: QueueSink<T>)
    requires 1 <= capacity
    ensures fresh(sink) && sink.Valid() && !sink.joinable
    ensures sink.Accepted() == [tick] && sink.handed == [] && sink.queue.items == [] && sink.queue.dropped == 0
  {
    sink := new QueueSink<T>(capacity);
    var started := sink.Start(false);
    sink.OnTick(tick);
    assert sink.queue.items == [tick] && sink.Accepted() == [tick];
    sink.Stop();
    assert sink.Accepted() == [tick];
  }
}
