/** The sender's fixed pool of batches: a free stack, and a free flag for each batch. */
module BatchPool {
  import opened Bytes
  import opened Wrappers

  /** A pool batch. `records` is the history of what was appended; the code keeps only the other two. */
  datatype Batch = Batch(payload: bytes, recordCount: nat, records: seq<bytes>)

  const EMPTY_BATCH := Batch([], 0, [])

  datatype Pool = Pool(batches: seq<Batch>, freeStack: seq<nat>, freeFlags: seq<bool>) {
    /** The stack lists pool batches, each at most once, and they are the ones flagged free. */
    predicate Valid()
    {
      && |freeFlags| == |batches|
      && (forall i :: 0 <= i < |freeStack| ==> freeStack[i] < |batches|)
      && (forall i, j :: 0 <= i < j < |freeStack| ==> freeStack[i] != freeStack[j])
      && (forall i :: 0 <= i < |batches| ==> (freeFlags[i] <==> i in freeStack))
    }

    function Acquired(): (r: (Pool, Option<nat>))
      requires Valid()
    {
      if freeStack == [] then (this, None) else
        var index := freeStack[|freeStack| - 1];
        (Pool(batches[index := EMPTY_BATCH], freeStack[..|freeStack| - 1], freeFlags[index := false]), Some(index))
    }

    function Released(index: nat): Pool
      requires |freeFlags| == |batches|
    {
      if index >= |batches| || freeFlags[index] then this
      else Pool(batches[index := EMPTY_BATCH], freeStack + [index], freeFlags[index := true])
    }

    /** The pool with one more record in a batch. */
    function Appended(index: nat, record: bytes): Pool
      requires index < |batches|
    {
      var b := batches[index];
      this.(batches := batches[index := Batch(b.payload + record, b.recordCount + 1, b.records + [record])])
    }
  }

  lemma AcquireKeeps(p: Pool)
    requires p.Valid()
    ensures p.Acquired().0.Valid() && |p.Acquired().0.batches| == |p.batches|
    ensures p.Acquired().1.None? <==> p.freeStack == []
    ensures p.Acquired().1.Some? ==> p.freeStack == p.Acquired().0.freeStack + [p.Acquired().1.value]
  {
  }

  lemma ReleaseKeeps(p: Pool, index: nat)
    requires p.Valid() && index < |p.batches|
    ensures p.Released(index).Valid() && |p.Released(index).batches| == |p.batches|
    ensures index in p.Released(index).freeStack
            && p.Released(index).batches[index] == if index in p.freeStack then p.batches[index] else EMPTY_BATCH
  {
    var q := p.Released(index);
    if index !in p.freeStack {
      forall i | 0 <= i < |q.batches|
        ensures q.freeFlags[i] <==> i in q.freeStack
      {
        assert i in q.freeStack <==> i in p.freeStack || i == index;
      }
    }
  }

  /** Handing out a batch and taking it straight back leaves the same batches free, in the same order. */
  lemma ReleaseUndoesAcquire(p: Pool)
    requires p.Valid() && p.Acquired().1.Some?
    ensures var (q, index) := p.Acquired();
            q.Released(index.value) == p.(batches := p.batches[index.value := EMPTY_BATCH])
  {
    var (q, index) := p.Acquired();
    assert q.Released(index.value).freeFlags == p.freeFlags;
  }

  /** The stack of a new pool: the highest index at the bottom, so that batch 0 is handed out first. */
  function Descending(count: nat, k: nat): (r: seq<nat>)
    requires k <= count
    ensures |r| == k && forall i :: 0 <= i < k ==> r[i] == count - 1 - i
  {
    if k == 0 then [] else Descending(count, k - 1) + [count - k]
  }

  function FreshPool(count: nat): Pool
  {
    Pool(seq(count, i => EMPTY_BATCH), Descending(count, count), seq(count, i => true))
  }

  lemma FreshPoolValid(count: nat)
    ensures FreshPool(count).Valid() && |FreshPool(count).batches| == count
  {
    var stack := Descending(count, count);
    forall i | 0 <= i < count
      ensures i in stack
    {
      assert stack[count - 1 - i] == i;
    }
  }

  /** What `init` makes of its configuration; it refuses a zero batch size and too small a pool. */
  function Init(poolBytes: nat, batchSize: nat, minBatches: nat): Option<Pool>
  {
    if batchSize == 0 || poolBytes / batchSize < minBatches || poolBytes / batchSize >= U32 then None
    else Some(FreshPool(poolBytes / batchSize))
  }

  class Batches {
    var batches: array<Batch>
    var freeIndexes: seq<nat>
    var freeFlags: array<bool>

    ghost function State(): Pool
      reads this, batches, freeFlags
    {
      Pool(batches[..], freeIndexes, freeFlags[..])
    }

    constructor ()
      ensures State() == Pool([], [], []) && fresh(batches) && fresh(freeFlags)
    {
      batches := new Batch[0];
      freeFlags := new bool[0];
      freeIndexes := [];
    }

    method InitPool(poolBytes: nat, batchSize: nat, minBatches: nat) returns (ok: bool)
      modifies this
      ensures ok == Init(poolBytes, batchSize, minBatches).Some?
      ensures State() == if ok then Init(poolBytes, batchSize, minBatches).value else old(State())
      ensures ok ==> fresh(batches) && fresh(freeFlags)
      ensures !ok ==> batches == old(batches) && freeFlags == old(freeFlags)
    {
      if batchSize == 0 {
        return false;
      }
      var count := poolBytes / batchSize;
      if count < minBatches || count >= U32 {
        return false;
      }
      batches := new Batch[count](_ => EMPTY_BATCH);
      freeFlags := new bool[count](_ => true);
      freeIndexes := [];
      for i := 0 to count
        invariant freeIndexes == Descending(count, i)
        invariant fresh(batches) && fresh(freeFlags) && batches[..] == FreshPool(count).batches
                  && freeFlags[..] == FreshPool(count).freeFlags
      {
        freeIndexes := freeIndexes + [count - 1 - i];
      }
      return true;
    }

    method Acquire() returns (index: Option<nat>)
      requires State().Valid()
      modifies this, batches, freeFlags
      ensures batches == old(batches) && freeFlags == old(freeFlags)
      ensures (State(), index) == old(State()).Acquired()
    {
      if freeIndexes == [] {
        return None;
      }
      var top := freeIndexes[|freeIndexes| - 1];
      freeIndexes := freeIndexes[..|freeIndexes| - 1];
      freeFlags[top] := false;
      batches[top] := EMPTY_BATCH;
      return Some(top);
    }

    method Release(index: nat)
      requires batches.Length == freeFlags.Length
      modifies this, batches, freeFlags
      ensures batches == old(batches) && freeFlags == old(freeFlags)
      ensures State() == old(State()).Released(index)
    {
      if index >= batches.Length || freeFlags[index] {
        return;
      }
      batches[index] := EMPTY_BATCH;
      freeFlags[index] := true;
      freeIndexes := freeIndexes + [index];
    }

    method Append(index: nat, record: bytes)
      requires index < batches.Length
      modifies batches
      ensures State() == old(State()).Appended(index, record)
    {
      var b := batches[index];
      batches[index] := Batch(b.payload + record, b.recordCount + 1, b.records + [record]);
    }
  }
}
