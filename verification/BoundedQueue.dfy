/** The bounded queue between the collector's uploads and its insert workers. */
module BoundedQueue {
  import opened Wrappers

  datatype Queue<T> = Queue(capacity: nat, items: seq<T>, closed: bool)

  /** A capacity of zero is taken as one. */
  function NewQueue<T>(capacity: nat): Queue<T>
  {
    Queue(if capacity == 0 then 1 else capacity, [], false)
  }

  datatype Op<T> = TryPush(item: T) | Push(item: T) | Pop | Close

  /** What a caller sees of an operation. */
  datatype Seen<T> = Accepted(item: T) | Refused | Got(item: T) | End | Done

  /** A blocking operation goes ahead only when what it waits for holds. */
  predicate Ready<T>(q: Queue<T>, op: Op<T>)
  {
    match op
    case Push(_) => q.closed || |q.items| < q.capacity
    case Pop => q.closed || q.items != []
    case _ => true
  }

  function Apply<T>(q: Queue<T>, op: Op<T>): (Queue<T>, Seen<T>)
    requires Ready(q, op)
  {
    match op
    case TryPush(item) =>
      if q.closed || |q.items| >= q.capacity then (q, Refused) else (q.(items := q.items + [item]), Accepted(item))
    case Push(item) => if q.closed then (q, Refused) else (q.(items := q.items + [item]), Accepted(item))
    case Pop => if q.items == [] then (q, End) else (q.(items := q.items[1..]), Got(q.items[0]))
    case Close => (q.(closed := true), Done)
  }

  /** The items that pushes reported as accepted, and that pops returned, in order. */
  function AllAccepted<T>(seen: seq<Seen<T>>): seq<T>
  {
    if seen == [] then [] else OneAccepted(seen[0]) + AllAccepted(seen[1..])
  }

  function AllGot<T>(seen: seq<Seen<T>>): seq<T>
  {
    if seen == [] then [] else OneGot(seen[0]) + AllGot(seen[1..])
  }

  ghost predicate IsRun<T>(states: seq<Queue<T>>, ops: seq<Op<T>>, seen: seq<Seen<T>>)
  {
    && |states| == |ops| + 1 == |seen| + 1 && 0 < states[0].capacity
    && forall i :: 0 <= i < |ops| ==> Ready(states[i], ops[i]) && (states[i + 1], seen[i]) == Apply(states[i], ops[i])
  }

  lemma RunTail<T>(states: seq<Queue<T>>, ops: seq<Op<T>>, seen: seq<Seen<T>>)
    requires IsRun(states, ops, seen) && ops != []
    ensures IsRun(states[1..], ops[1..], seen[1..])
  {
    hide Apply;
    assert states[1] == Apply(states[0], ops[0]).0;
    assert Apply(states[0], ops[0]).0.capacity == states[0].capacity by { SameCapacity(states[0], ops[0]); }
    forall i | 0 <= i < |ops[1..]|
      ensures Ready(states[1..][i], ops[1..][i])
              && (states[1..][i + 1], seen[1..][i]) == Apply(states[1..][i], ops[1..][i])
    {
      assert states[1..][i] == states[i + 1] && states[1..][i + 1] == states[i + 2];
      assert ops[1..][i] == ops[i + 1] && seen[1..][i] == seen[i + 1];
    }
  }

  lemma SameCapacity<T>(q: Queue<T>, op: Op<T>)
    requires Ready(q, op)
    ensures Apply(q, op).0.capacity == q.capacity
  {
  }

  /** In every run, whatever the interleaving: what was accepted, after what the queue held at the start,
    * is what was popped, in the same order and each once, followed by what is still queued. */
  lemma {:induction false} History<T>(states: seq<Queue<T>>, ops: seq<Op<T>>, seen: seq<Seen<T>>)
    requires IsRun(states, ops, seen) && |states[0].items| <= states[0].capacity
    ensures states[0].items + AllAccepted(seen) == AllGot(seen) + states[|ops|].items
    ensures |states[|ops|].items| <= states[|ops|].capacity == states[0].capacity
  {
    if ops != [] {
      RunTail(states, ops, seen);
      History(states[1..], ops[1..], seen[1..]);
      assert (states[1], seen[0]) == Apply(states[0], ops[0]);
      StepHistory(states[0], ops[0]);
      assert states[1..][|ops[1..]|] == states[|ops|];
      Regroup(states[0].items, OneAccepted(seen[0]), OneGot(seen[0]), states[1].items,
              AllAccepted(seen[1..]), AllGot(seen[1..]), states[|ops|].items);
    }
  }

  function OneAccepted<T>(seen: Seen<T>): seq<T>
  {
    if seen.Accepted? then [seen.item] else []
  }

  function OneGot<T>(seen: Seen<T>): seq<T>
  {
    if seen.Got? then [seen.item] else []
  }

  lemma StepHistory<T>(q: Queue<T>, op: Op<T>)
    requires Ready(q, op) && |q.items| <= q.capacity && 0 < q.capacity
    ensures var (r, seen) := Apply(q, op);
            q.items + OneAccepted(seen) == OneGot(seen) + r.items && |r.items| <= r.capacity == q.capacity
  {
    var (r, seen) := Apply(q, op);
    match op {
      case Pop => if q.items != [] { assert q.items == [q.items[0]] + q.items[1..]; }
      case _ =>
    }
  }

  lemma Regroup<T>(items: seq<T>, first: seq<T>, got: seq<T>, mid: seq<T>, accepted: seq<T>, popped: seq<T>,
                   last: seq<T>)
    requires items + first == got + mid && mid + accepted == popped + last
    ensures items + (first + accepted) == (got + popped) + last
  {
    assert items + (first + accepted) == (items + first) + accepted;
    assert (got + mid) + accepted == got + (mid + accepted);
    assert got + (popped + last) == (got + popped) + last;
  }

  lemma StaysClosed<T>(q: Queue<T>, op: Op<T>)
    requires Ready(q, op) && q.closed
    ensures Apply(q, op).0.closed && OneAccepted(Apply(q, op).1) == []
  {
  }

  /** Nothing is accepted once the queue is closed. */
  lemma {:induction false} ClosedForGood<T>(states: seq<Queue<T>>, ops: seq<Op<T>>, seen: seq<Seen<T>>)
    requires IsRun(states, ops, seen) && states[0].closed
    ensures AllAccepted(seen) == [] && states[|ops|].closed
  {
    if ops != [] {
      RunTail(states, ops, seen);
      StaysClosed(states[0], ops[0]);
      assert (states[1], seen[0]) == Apply(states[0], ops[0]);
      ClosedForGood(states[1..], ops[1..], seen[1..]);
      assert states[1..][|ops[1..]|] == states[|ops|];
    }
  }

  /** In any run, from the state after a close on, the queue is closed and nothing is accepted any more. */
  lemma {:induction false} ClosedByClose<T>(states: seq<Queue<T>>, ops: seq<Op<T>>, seen: seq<Seen<T>>, i: nat, j: nat)
    requires IsRun(states, ops, seen) && i < j < |states| && ops[i] == Op<T>.Close
    ensures states[j].closed && (j < |ops| ==> !seen[j].Accepted?)
    decreases j
  {
    assert (states[j], seen[j - 1]) == Apply(states[j - 1], ops[j - 1]);
    if i < j - 1 {
      ClosedByClose(states, ops, seen, i, j - 1);
      StaysClosed(states[j - 1], ops[j - 1]);
    }
    if j < |ops| {
      assert (states[j + 1], seen[j]) == Apply(states[j], ops[j]);
      StaysClosed(states[j], ops[j]);
    }
  }

  /** What each operation does to the items, and what its caller sees. */
  lemma OpsMean<T>(q: Queue<T>, item: T)
    requires 0 < q.capacity && |q.items| <= q.capacity
    ensures var (r, seen) := Apply(q, TryPush(item));
            if q.closed || |q.items| == q.capacity then seen == Refused && r == q
            else seen == Accepted(item) && r.items == q.items + [item] && !r.closed
    ensures Ready(q, Op<T>.Push(item)) ==>
              var (r, seen) := Apply(q, Op<T>.Push(item));
              if q.closed then seen == Refused && r == q
              else seen == Accepted(item) && r.items == q.items + [item] && !r.closed
    ensures Ready(q, Op<T>.Pop) ==>
              var (r, seen) := Apply(q, Op<T>.Pop);
              r.closed == q.closed && if q.items == [] then seen == End && q.closed
                                      else seen == Got(q.items[0]) && q.items == [q.items[0]] + r.items
    ensures !Ready(q, Op<T>.Push(item)) <==> !q.closed && |q.items| == q.capacity
    ensures !Ready(q, Op<T>.Pop) <==> !q.closed && q.items == []
    ensures var (r, seen) := Apply(q, Op<T>.Close); r.closed && r.items == q.items
  {
  }

  /** A pop reports the end only when the queue is closed and everything ever accepted has been popped. */
  lemma EndMeansDrained<T>(states: seq<Queue<T>>, ops: seq<Op<T>>, seen: seq<Seen<T>>)
    requires IsRun(states, ops, seen) && states[0].items == [] && ops != [] && seen[|ops| - 1] == End
    ensures states[|ops|].closed && AllGot(seen) == AllAccepted(seen)
  {
    var n := |ops| - 1;
    assert (states[n + 1], seen[n]) == Apply(states[n], ops[n]);
    assert states[|ops|].items == [];
    History(states, ops, seen);
    assert states[0].items + AllAccepted(seen) == AllAccepted(seen);
    assert AllGot(seen) + states[|ops|].items == AllGot(seen);
  }

  class BoundedMpmcQueue<T> {
    const capacity: nat
    var queue: seq<T>
    var closed: bool

    ghost function State(): Queue<T>
      reads this
    {
      Queue(capacity, queue, closed)
    }

    constructor (capacity: nat)
      ensures State() == NewQueue(capacity)
      ensures queue == [] && !closed && this.capacity > 0 && (capacity > 0 ==> this.capacity == capacity)
    {
      this.capacity := if capacity == 0 then 1 else capacity;
      queue, closed := [], false;
    }

    /** Once it need not wait any longer. */
    method Push(item: T) returns (ok: bool)
      requires Ready(State(), Op.Push(item))
      modifies this
      ensures (State(), if ok then Accepted(item) else Refused) == Apply(old(State()), Op.Push(item))
      ensures ok == !old(closed) && closed == old(closed) && queue == old(queue) + if ok then [item] else []
    {
      if closed {
        return false;
      }
      queue := queue + [item];
      return true;
    }

    method TryPush(item: T) returns (ok: bool)
      modifies this
      ensures (State(), if ok then Accepted(item) else Refused) == Apply(old(State()), Op.TryPush(item))
      ensures ok <==> !old(closed) && |old(queue)| < capacity
      ensures closed == old(closed) && queue == old(queue) + if ok then [item] else []
    {
      if closed || |queue| >= capacity {
        return false;
      }
      queue := queue + [item];
      return true;
    }

    /** Once it need not wait any longer. */
    method Pop() returns (item: Option<T>)
      requires Ready(State(), Op.Pop)
      modifies this
      ensures (State(), if item.Some? then Got(item.value) else End) == Apply(old(State()), Op.Pop)
      ensures closed == old(closed) && (item.None? <==> old(queue) == [])
      ensures old(queue) == (if item.Some? then [item.value] else []) + queue
    {
      if queue == [] {
        return None;
      }
      item := Some(queue[0]);
      queue := queue[1..];
    }

    method Close()
      modifies this
      ensures State() == Apply(old(State()), Op<T>.Close).0
      ensures closed && queue == old(queue)
    {
      closed := true;
    }
  }
}
