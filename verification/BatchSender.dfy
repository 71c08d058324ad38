/** The agent's batch sender as a state machine: each critical section is one step, each worker a phase. */
module BatchSender {
  import opened Bytes
  import opened Wrappers
  import opened BatchPool

  /** A worker between two critical sections. A resolved batch was acknowledged or given up, and still
    * has to go back to the pool. */
  datatype Phase =
    | Idle
    | Uploading(batch: nat, attempt: nat)
    | Exhausted(batch: nat)
    | Resolved(batch: nat)
    | Exited

  /** The sender's fields. The last three are the records that its counters of the same names count. */
  datatype Sender = Sender(
    pool: Pool, batchBytes: nat, current: Option<nat>, ready: seq<nat>, workers: seq<Phase>,
    started: bool, stopping: bool, maxRetries: nat,
    queuedRecords: int, queuedBytes: int, activeRecords: int,
    accepted: multiset<bytes>, acknowledged: multiset<bytes>, dropped: multiset<bytes>)

  function NewSender(pool: Pool, batchBytes: nat, concurrency: nat, maxRetries: nat): Sender
  {
    Sender(pool, batchBytes, None, [], seq(concurrency, i => Idle), true, false, maxRetries, 0, 0, 0,
           multiset{}, multiset{}, multiset{})
  }

  function BatchAt(s: Sender, i: nat): Batch
  {
    if i < |s.pool.batches| then s.pool.batches[i] else EMPTY_BATCH
  }

  // The critical sections, one function each.

  /** `seal_current_batch_locked`. */
  function Seal(s: Sender): Sender
  {
    if s.current.None? || BatchAt(s, s.current.value).recordCount == 0 then s
    else s.(ready := s.ready + [s.current.value], current := None)
  }

  /** The record goes into the open batch. */
  function Appended(s: Sender, record: bytes): Sender
    requires s.current.Some? && s.current.value < |s.pool.batches|
  {
    s.(pool := s.pool.Appended(s.current.value, record), accepted := s.accepted + multiset{record},
       queuedRecords := s.queuedRecords + 1, queuedBytes := s.queuedBytes + |record|)
  }

  /** Appends, and seals the batch when it is full. */
  function Add(s: Sender, record: bytes): Sender
    requires s.current.Some? && s.current.value < |s.pool.batches|
  {
    var s' := Appended(s, record);
    if |BatchAt(s', s.current.value).payload| >= s.batchBytes then Seal(s') else s'
  }

  /** Opens a batch if none is open and the pool still has one. */
  function Open(s: Sender): Sender
    requires s.pool.Valid()
  {
    if s.current.Some? then s else
      var (pool, index) := s.pool.Acquired();
      s.(pool := pool, current := index)
  }

  /** The open batch is sealed when it has waited too long, or has no room for the record. */
  function MakeRoom(s: Sender, size: nat, expired: bool): Sender
  {
    var s' := if expired then Seal(s) else s;
    if s'.current.Some? && |BatchAt(s', s'.current.value).payload| + size > s.batchBytes then Seal(s') else s'
  }

  /** `grpc_submit_locked`: the record is taken in, or refused. */
  function Submit(s: Sender, record: bytes, expired: bool): (Sender, bool)
    requires s.pool.Valid() && (s.current.Some? ==> s.current.value < |s.pool.batches|)
  {
    if record == [] || !s.started || s.stopping || |record| > s.batchBytes then (s, false) else
      var s' := Open(MakeRoom(s, |record|, expired));
      if s'.current.None? then (s', false) else (Add(s', record), true)
  }

  /** The head of the ready queue goes to a worker. */
  function Took(s: Sender, w: nat): Sender
    requires w < |s.workers| && s.ready != []
  {
    var b := BatchAt(s, s.ready[0]);
    s.(ready := s.ready[1..], queuedRecords := s.queuedRecords - b.recordCount,
       queuedBytes := s.queuedBytes - |b.payload|,
       activeRecords := s.activeRecords + b.recordCount, workers := s.workers[w := Uploading(s.ready[0], 0)])
  }

  /** One turn of the loop in `pop_ready_batch`. */
  function Pop(s: Sender, w: nat, expired: bool): Sender
    requires w < |s.workers|
  {
    var s' := if expired then Seal(s) else s;
    if s'.ready != [] then Took(s', w)
    else if s.stopping then
      var s2 := Seal(s');
      if s2.ready == [] then s2.(workers := s2.workers[w := Exited]) else s2
    else s'
  }

  function Failed(s: Sender, w: nat): Sender
    requires w < |s.workers| && s.workers[w].Uploading?
  {
    var Uploading(b, attempt) := s.workers[w];
    s.(workers := s.workers[w := if attempt < s.maxRetries then Uploading(b, attempt + 1) else Exhausted(b)])
  }

  /** An upload that the collector acknowledged. */
  function Succeeded(s: Sender, w: nat): Sender
    requires w < |s.workers| && s.workers[w].Uploading?
  {
    var b := s.workers[w].batch;
    s.(acknowledged := s.acknowledged + multiset(BatchAt(s, b).records), workers := s.workers[w := Resolved(b)])
  }

  function GaveUp(s: Sender, w: nat): Sender
    requires w < |s.workers| && s.workers[w].Exhausted?
  {
    var b := s.workers[w].batch;
    s.(dropped := s.dropped + multiset(BatchAt(s, b).records), workers := s.workers[w := Resolved(b)])
  }

  function Returned(s: Sender, w: nat): Sender
    requires w < |s.workers| && s.workers[w].Resolved? && s.pool.Valid()
  {
    var b := s.workers[w].batch;
    s.(activeRecords := s.activeRecords - BatchAt(s, b).recordCount, pool := s.pool.Released(b),
       workers := s.workers[w := Idle])
  }

  /** The start of `flush`; it then waits for `Flushed`. */
  function FlushStarted(s: Sender): Sender
  {
    if !s.started || s.stopping then s else Seal(s)
  }

  predicate Flushed(s: Sender)
  {
    s.queuedRecords == 0 && s.activeRecords == 0
  }

  function StopStarted(s: Sender): Sender
  {
    if !s.started then s else Seal(s.(stopping := true))
  }

  predicate Joined(s: Sender)
  {
    forall w :: 0 <= w < |s.workers| ==> s.workers[w].Exited?
  }

  function ReleaseAll(pool: Pool, batches: seq<nat>): (r: Pool)
    requires |pool.freeFlags| == |pool.batches|
    ensures |r.freeFlags| == |r.batches|
    decreases |batches|
  {
    if batches == [] then pool else ReleaseAll(pool.Released(batches[0]), batches[1..])
  }

  /** The end of `stop`, after the workers were joined. */
  function Stopped(s: Sender): Sender
    requires s.pool.Valid()
  {
    var pool := if s.current.Some? then s.pool.Released(s.current.value) else s.pool;
    s.(pool := ReleaseAll(pool, s.ready), current := None, ready := [], workers := [], started := false,
       queuedRecords := 0, queuedBytes := 0)
  }

  const DEFAULT_BATCH_BYTES: nat := 262144
  const DEFAULT_POOL_BYTES: nat := 64 * 1024 * 1024
  const DEFAULT_CONCURRENCY: nat := 2
  const MAX_CONCURRENCY: nat := 8
  const DEFAULT_MAX_RETRIES: nat := 3

  function DefaultOr(value: nat, default: nat): nat
  {
    if value == 0 then default else value
  }

  /** The number of workers: at least one, whatever is configured. */
  function WorkerCount(concurrency: nat): nat
  {
    var n := DefaultOr(concurrency, DEFAULT_CONCURRENCY);
    if n < MAX_CONCURRENCY then n else MAX_CONCURRENCY
  }

  /** `start`: it insists on two batches more than workers. */
  function Started(s: Sender, poolBytes: nat, batchBytes: nat, concurrency: nat, maxRetries: nat): Sender
  {
    var size, n := DefaultOr(batchBytes, DEFAULT_BATCH_BYTES), WorkerCount(concurrency);
    match Init(DefaultOr(poolBytes, DEFAULT_POOL_BYTES), size, n + 2)
    case None => s
    case Some(pool) => NewSender(pool, size, n, DefaultOr(maxRetries, DEFAULT_MAX_RETRIES))
  }

  // Who holds what.

  /** The batch that a worker holds; with `open` only if its outcome is still open. */
  function Held(p: Phase, open: bool): seq<nat>
  {
    match p
    case Uploading(b, _) => [b]
    case Exhausted(b) => [b]
    case Resolved(b) => if open then [] else [b]
    case _ => []
  }

  function HeldBy(workers: seq<Phase>, open: bool): multiset<nat>
  {
    if workers == [] then multiset{} else multiset(Held(workers[0], open)) + HeldBy(workers[1..], open)
  }

  function RecordsAt(batches: seq<Batch>, i: nat): multiset<bytes>
  {
    if i < |batches| then multiset(batches[i].records) else multiset{}
  }

  function BytesAt(batches: seq<Batch>, i: nat): nat
  {
    if i < |batches| then |batches[i].payload| else 0
  }

  /** All records in a list of batches, and their size. */
  function RecordsIn(batches: seq<Batch>, owned: seq<nat>): multiset<bytes>
  {
    if owned == [] then multiset{} else RecordsAt(batches, owned[0]) + RecordsIn(batches, owned[1..])
  }

  function BytesIn(batches: seq<Batch>, owned: seq<nat>): nat
  {
    if owned == [] then 0 else BytesAt(batches, owned[0]) + BytesIn(batches, owned[1..])
  }

  function RecordsHeld(batches: seq<Batch>, workers: seq<Phase>, open: bool): multiset<bytes>
  {
    if workers == [] then multiset{}
    else RecordsIn(batches, Held(workers[0], open)) + RecordsHeld(batches, workers[1..], open)
  }

  /** What waits to be sent, in order: the ready batches, then the open one. */
  function Queue(s: Sender): seq<nat>
  {
    s.ready + match s.current case None => [] case Some(b) => [b]
  }

  /** Every place a batch can be. */
  function Places(s: Sender): multiset<nat>
  {
    multiset(s.pool.freeStack) + multiset(Queue(s)) + HeldBy(s.workers, false)
  }

  // The invariant.

  predicate BatchOk(b: Batch, batchBytes: nat)
  {
    && b.payload == Concat(b.records) && b.recordCount == |b.records| && |b.payload| <= batchBytes
    && (b.recordCount > 0 ==> b.payload != [])
  }

  /** Each pool batch is in exactly one place: the free stack, the open batch, the ready queue, a worker. */
  ghost predicate Owned(s: Sender)
  {
    s.pool.Valid() && forall i: nat :: Places(s)[i] == if i < |s.pool.batches| then 1 else 0
  }

  /** Every batch holds exactly its records, within the size limit; no batch is ready or held empty. */
  ghost predicate Filled(s: Sender)
  {
    && (forall i :: 0 <= i < |s.pool.batches| ==> BatchOk(s.pool.batches[i], s.batchBytes))
    && (forall i: nat :: i in s.ready || i in HeldBy(s.workers, false) ==> BatchAt(s, i).recordCount > 0)
  }

  /** The counters are the sums over the batches, and every accepted record is in one place. */
  predicate Counted(s: Sender)
  {
    && s.queuedRecords == |RecordsIn(s.pool.batches, Queue(s))|
    && s.queuedBytes == BytesIn(s.pool.batches, Queue(s))
    && s.activeRecords == |RecordsHeld(s.pool.batches, s.workers, false)|
    && s.accepted == s.acknowledged + s.dropped + RecordsIn(s.pool.batches, Queue(s))
                     + RecordsHeld(s.pool.batches, s.workers, true)
  }

  /** Nothing opens once stop began, a worker leaves only when nothing is left, and none retries too often. */
  predicate Orderly(s: Sender)
  {
    && (s.started ==> s.workers != []) && (s.stopping ==> s.current.None?)
    && (forall w :: 0 <= w < |s.workers| && s.workers[w].Exited? ==> s.stopping && s.ready == [])
    && (forall w :: 0 <= w < |s.workers| && s.workers[w].Uploading? ==> s.workers[w].attempt <= s.maxRetries)
  }

  ghost predicate Core(s: Sender)
  {
    Owned(s) && Filled(s) && Counted(s) && Orderly(s)
  }

  ghost predicate Inv(s: Sender)
  {
    Core(s) && (s.current.Some? ==> BatchAt(s, s.current.value).recordCount > 0)
  }
}
