/** How a bulk insert is cut into chunks, and that no other cutting needs fewer of them. */
module Chunking {
  /** A limit of zero is no limit. */
  datatype Limits = Limits(maxRecords: nat, maxBytes: nat)

  function ChunkBytes(sizes: seq<nat>, from: nat, till: nat): nat
    requires from <= till <= |sizes|
    decreases till
  {
    if from == till then 0 else ChunkBytes(sizes, from, till - 1) + sizes[till - 1]
  }

  predicate Within(sizes: seq<nat>, l: Limits, from: nat, till: nat)
    requires from <= till <= |sizes|
  {
    (l.maxRecords > 0 ==> till - from <= l.maxRecords)
    && (l.maxBytes > 0 ==> ChunkBytes(sizes, from, till) <= l.maxBytes)
  }

  /** A chunk of one is always allowed; a larger one has to respect both limits. */
  predicate Allowed(sizes: seq<nat>, l: Limits, from: nat, till: nat)
  {
    from < till <= |sizes| && (till == from + 1 || Within(sizes, l, from, till))
  }

  /** Where the scan that has reached `end` stops. */
  function Extend(sizes: seq<nat>, l: Limits, start: nat, end: nat): (r: nat)
    requires start < end <= |sizes|
    ensures end <= r <= |sizes|
    decreases |sizes| - end
  {
    if end == |sizes| then end
    else if l.maxRecords > 0 && end - start >= l.maxRecords then end
    else if l.maxBytes > 0 && ChunkBytes(sizes, start, end) + sizes[end] > l.maxBytes then end
    else Extend(sizes, l, start, end + 1)
  }

  function ChunkEnd(sizes: seq<nat>, l: Limits, start: nat): (r: nat)
    requires start < |sizes|
    ensures start < r <= |sizes|
  {
    Extend(sizes, l, start, start + 1)
  }

  function Greedy(sizes: seq<nat>, l: Limits, start: nat): (cuts: seq<nat>)
    requires start <= |sizes|
    ensures cuts != [] && cuts[0] == start
    decreases |sizes| - start
  {
    if start == |sizes| then [start] else [start] + Greedy(sizes, l, ChunkEnd(sizes, l, start))
  }

  /** The cut points of a contiguous partition into allowed, non-empty chunks. */
  predicate Partition(sizes: seq<nat>, l: Limits, cuts: seq<nat>, start: nat)
  {
    && cuts != [] && cuts[0] == start && cuts[|cuts| - 1] == |sizes|
    && forall i :: 0 <= i < |cuts| - 1 ==> Allowed(sizes, l, cuts[i], cuts[i + 1])
  }

  lemma {:induction false} BytesSuffix(sizes: seq<nat>, from: nat, later: nat, till: nat)
    requires from <= later <= till <= |sizes|
    ensures ChunkBytes(sizes, later, till) <= ChunkBytes(sizes, from, till)
    decreases till
  {
    if later < till {
      BytesSuffix(sizes, from, later, till - 1);
    }
  }

  lemma {:induction false} BytesPrefix(sizes: seq<nat>, from: nat, mid: nat, till: nat)
    requires from <= mid <= till <= |sizes|
    ensures ChunkBytes(sizes, from, mid) <= ChunkBytes(sizes, from, till)
    decreases till
  {
    if mid < till {
      BytesPrefix(sizes, from, mid, till - 1);
    }
  }

  /** The scan stops at the end of an allowed chunk, and no allowed chunk from there on is longer. */
  lemma {:induction false} ExtendMaximal(sizes: seq<nat>, l: Limits, start: nat, end: nat)
    requires start < |sizes| && Allowed(sizes, l, start, end)
    ensures Allowed(sizes, l, start, Extend(sizes, l, start, end))
    ensures forall till: nat :: Allowed(sizes, l, start, till) ==> till <= Extend(sizes, l, start, end)
    decreases |sizes| - end
  {
    forall till: nat | Allowed(sizes, l, start, till) && end < till
      ensures till <= Extend(sizes, l, start, end)
    {
      BytesPrefix(sizes, start, end + 1, till);
      if end + 1 <= |sizes| && Allowed(sizes, l, start, end + 1) {
        ExtendMaximal(sizes, l, start, end + 1);
      }
    }
    if end < |sizes| && Allowed(sizes, l, start, end + 1) {
      ExtendMaximal(sizes, l, start, end + 1);
    }
  }

  /** The loop's chunks are such a partition. */
  lemma {:induction false} GreedyIsPartition(sizes: seq<nat>, l: Limits, start: nat)
    requires start <= |sizes|
    ensures Partition(sizes, l, Greedy(sizes, l, start), start)
    decreases |sizes| - start
  {
    if start < |sizes| {
      var next := ChunkEnd(sizes, l, start);
      ExtendMaximal(sizes, l, start, start + 1);
      GreedyIsPartition(sizes, l, next);
      var rest, cuts := Greedy(sizes, l, next), Greedy(sizes, l, start);
      assert cuts == [start] + rest;
      forall i | 0 <= i < |cuts| - 1
        ensures Allowed(sizes, l, cuts[i], cuts[i + 1])
      {
        assert i > 0 ==> cuts[i] == rest[i - 1] && cuts[i + 1] == rest[i];
      }
    }
  }

  /** A chunk stays allowed when it starts later. */
  lemma AllowedLater(sizes: seq<nat>, l: Limits, from: nat, later: nat, till: nat)
    requires Allowed(sizes, l, from, till) && from <= later < till
    ensures Allowed(sizes, l, later, till)
  {
    BytesSuffix(sizes, from, later, till);
  }

  /** Starting no earlier, the greedy chunks are never more than those of any other partition. */
  lemma {:induction false} GreedyBehind(sizes: seq<nat>, l: Limits, cuts: seq<nat>, from: nat, start: nat)
    requires from <= start <= |sizes| && Partition(sizes, l, cuts, from)
    ensures |Greedy(sizes, l, start)| <= |cuts|
    decreases |cuts|
  {
    if start < |sizes| {
      var rest := cuts[1..];
      assert Allowed(sizes, l, cuts[0], cuts[1]);
      forall i | 0 <= i < |rest| - 1
        ensures Allowed(sizes, l, rest[i], rest[i + 1])
      {
        assert rest[i] == cuts[i + 1] && rest[i + 1] == cuts[i + 2];
      }
      if cuts[1] <= start {
        GreedyBehind(sizes, l, rest, cuts[1], start);
      } else {
        AllowedLater(sizes, l, from, start, cuts[1]);
        ExtendMaximal(sizes, l, start, start + 1);
        GreedyBehind(sizes, l, rest, cuts[1], ChunkEnd(sizes, l, start));
      }
    }
  }

  /** Greedy chunking is a partition under the rule, and no partition under the rule has fewer chunks. */
  lemma GreedyOptimal(sizes: seq<nat>, l: Limits)
    ensures Partition(sizes, l, Greedy(sizes, l, 0), 0)
    ensures forall cuts :: Partition(sizes, l, cuts, 0) ==> |Greedy(sizes, l, 0)| <= |cuts|
  {
    GreedyIsPartition(sizes, l, 0);
    forall cuts | Partition(sizes, l, cuts, 0)
      ensures |Greedy(sizes, l, 0)| <= |cuts|
    {
      GreedyBehind(sizes, l, cuts, 0, 0);
    }
  }
}
