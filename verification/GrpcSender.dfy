/** The sender as it runs: the pool, the open batch, the ready queue and the counters, changed in place. */
module GrpcSender {
  import opened Bytes
  import opened Wrappers
  import opened AuditRecord
  import opened BatchPool
  import opened BatchSender
  import opened SenderInvariant
  import opened SenderRuns

  datatype Config = Config(batchBytes: nat, maxRetries: nat)

  datatype Stats = Stats(acceptedRecords: nat, sentRecords: nat, acknowledgedRecords: nat, droppedAfterRetries: nat)

  /** The records that the counters count; `honest` as long as every ok reply has named as many accepted records as
    * its batch had. */
  datatype History = History(accepted: multiset<bytes>, acknowledged: multiset<bytes>, dropped: multiset<bytes>,
                             honest: bool)

  function PowerOfTwo(n: nat): (r: nat)
    ensures r >= 1
  {
    if n == 0 then 1 else 2 * PowerOfTwo(n - 1)
  }

  const DEFAULT_RETRY_INITIAL: nat := 100
  const DEFAULT_RETRY_MAX: nat := 500

  /** The wait before a retry doubles with each one, up to the configured maximum; a zero stands for the default. */
  method RetryDelay(initial: nat, maximum: nat, retryIndex: nat) returns (delay: nat)
    ensures delay == Min(DefaultOr(initial, DEFAULT_RETRY_INITIAL) * PowerOfTwo(retryIndex),
                         DefaultOr(maximum, DEFAULT_RETRY_MAX))
  {
    var first, most := DefaultOr(initial, DEFAULT_RETRY_INITIAL), DefaultOr(maximum, DEFAULT_RETRY_MAX);
    delay := first;
    for i := 0 to retryIndex
      invariant Min(delay, most) == Min(first * PowerOfTwo(i), most)
    {
      assert first * PowerOfTwo(i + 1) == 2 * (first * PowerOfTwo(i));
      delay := Min(delay * 2, most);
    }
    delay := Min(delay, most);
  }

  class AuditGrpcSender {
    const pool: Batches
    var config: Config
    var current: Option<nat>
    var ready: seq<nat>
    /** Where each worker thread stands between two critical sections. */
    var workers: seq<Phase>
    var started: bool
    var stopping: bool
    var queuedRecords: int
    var queuedBytes: int
    var activeRecords: int
    var stats: Stats
    ghost var history: History

    ghost function State(): Sender
      reads this, pool, pool.batches, pool.freeFlags
    {
      Sender(pool.State(), config.batchBytes, current, ready, workers, started, stopping, config.maxRetries,
             queuedRecords, queuedBytes, activeRecords, history.accepted, history.acknowledged, history.dropped)
    }

    ghost predicate Valid()
      reads this, pool, pool.batches, pool.freeFlags
    {
      Inv(State()) && Counters()
    }

    ghost predicate Counters()
      reads this
    {
      && stats.acceptedRecords == |history.accepted| && stats.sentRecords == |history.acknowledged|
      && stats.droppedAfterRetries == |history.dropped|
         && (history.honest ==> stats.acknowledgedRecords == stats.sentRecords)
    }

    constructor ()
      ensures Valid() && State() == UNSTARTED && fresh(pool) && fresh(pool.batches) && fresh(pool.freeFlags)
    {
      hide Inv;
      var batches := new Batches();
      ghost var empty := batches.State();
      pool := batches;
      config, current, ready, workers := Config(0, 0), None, [], [];
      started, stopping, queuedRecords, queuedBytes, activeRecords := false, false, 0, 0, 0;
      stats := Stats(0, 0, 0, 0);
      history := History(multiset{}, multiset{}, multiset{}, true);
      new;
      assert pool.State() == empty;
      UnstartedInv();
    }

    method PayloadSize(i: nat) returns (n: nat)
      requires i < pool.batches.Length
      ensures n == |BatchAt(State(), i).payload|
    {
      n := |pool.batches[i].payload|;
    }

    method SealCurrent()
      requires current.Some? ==> current.value < pool.batches.Length
      modifies this`current, this`ready
      ensures State() == Seal(old(State()))
      ensures current.Some? ==> current.value < pool.batches.Length
    {
      if current.Some? && pool.batches[current.value].recordCount > 0 {
        ready := ready + [current.value];
        current := None;
      }
    }

    method Submit(record: bytes, expired: bool) returns (ok: bool)
      requires Valid()
      modifies this, pool, pool.batches, pool.freeFlags
      ensures Valid() && pool.batches == old(pool.batches) && pool.freeFlags == old(pool.freeFlags)
      ensures old(State()).pool.Valid()
              && (old(State()).current.Some? ==> old(State()).current.value < |old(State()).pool.batches|)
      ensures (State(), ok) == BatchSender.Submit(old(State()), record, expired)
    {
      hide Inv, Seal, Pool.Valid, MakeRoom, Open, Add;
      SubmitKeeps(State(), record, expired);
      if record == [] || !started || stopping || |record| > config.batchBytes {
        return false;
      }
      Room(|record|, expired);
      ok := OpenBatch();
      if ok {
        AddRecord(record);
      }
    }

    method Room(size: nat, expired: bool)
      requires current.Some? ==> current.value < pool.batches.Length
      modifies this`current, this`ready
      ensures State() == MakeRoom(old(State()), size, expired)
      ensures current.Some? ==> current.value < pool.batches.Length
    {
      hide BatchAt, Seal;
      if expired {
        SealCurrent();
      }
      if current.Some? {
        var used := PayloadSize(current.value);
        if used + size > config.batchBytes {
          SealCurrent();
        }
      }
    }

    method OpenBatch() returns (ok: bool)
      requires State().pool.Valid() && (current.Some? ==> current.value < pool.batches.Length)
      modifies this`current, pool, pool.batches, pool.freeFlags
      ensures pool.batches == old(pool.batches) && pool.freeFlags == old(pool.freeFlags)
      ensures State() == Open(old(State())) && ok == current.Some?
      ensures current.Some? ==> current.value < pool.batches.Length
    {
      if current.None? {
        current := pool.Acquire();
      }
      ok := current.Some?;
    }

    method AddRecord(record: bytes)
      requires current.Some? && current.value < pool.batches.Length && Counters()
      modifies this, pool.batches
      ensures Counters() && State() == Add(old(State()), record)
    {
      hide BatchAt, Seal;
      AppendRecord(record);
      var used := PayloadSize(current.value);
      if used >= config.batchBytes {
        SealCurrent();
      }
    }

    method AppendRecord(record: bytes)
      requires current.Some? && current.value < pool.batches.Length && Counters()
      modifies this`stats, this`history, this`queuedRecords, this`queuedBytes, pool.batches
      ensures Counters() && State() == Appended(old(State()), record)
    {
      hide Pool.Appended;
      pool.Append(current.value, record);
      ghost var appended := pool.State();
      queuedRecords := queuedRecords + 1;
      queuedBytes := queuedBytes + |record|;
      stats := stats.(acceptedRecords := stats.acceptedRecords + 1);
      history := history.(accepted := history.accepted + multiset{record});
      assert pool.State() == appended;
    }

    /** One turn of a worker's wait for a batch. */
    method PopReadyBatch(w: nat, expired: bool)
      requires Valid() && w < |workers| && workers[w].Idle?
      modifies this`current, this`ready, this`queuedRecords, this`queuedBytes, this`activeRecords, this`workers
      ensures Valid() && State() == Pop(old(State()), w, expired)
    {
      hide Inv, Seal, BatchAt;
      PopKeeps(State(), w, expired);
      PopBounds(State(), expired);
      if expired {
        SealCurrent();
      }
      if ready != [] {
        TakeReady(w);
      } else if stopping {
        SealCurrent();
        if ready == [] {
          workers := workers[w := Exited];
        }
      }
    }

    method TakeReady(w: nat)
      requires w < |workers| && ready != [] && ready[0] < pool.batches.Length
      modifies this`ready, this`queuedRecords, this`queuedBytes, this`activeRecords, this`workers
      ensures State() == Took(old(State()), w)
    {
      var batch := ready[0];
      ready := ready[1..];
      queuedRecords := queuedRecords - pool.batches[batch].recordCount;
      queuedBytes := queuedBytes - |pool.batches[batch].payload|;
      activeRecords := activeRecords + pool.batches[batch].recordCount;
      workers := workers[w := Uploading(batch, 0)];
    }

    /** One upload attempt. An ok reply ends it, whatever number of accepted records it names; that number goes
      * into a counter of its own. */
    method UploadOnce(w: nat, ok: bool, replyAccepted: nat)
      requires Valid() && w < |workers| && workers[w].Uploading?
      modifies this
      ensures Valid() && State() == if ok then Succeeded(old(State()), w) else Failed(old(State()), w)
      ensures stats.acknowledgedRecords == old(stats.acknowledgedRecords) + if ok then replyAccepted else 0
      ensures history.honest == (old(history.honest)
                                 && (ok ==> replyAccepted == |old(BatchAt(State(), workers[w].batch)).records|))
    {
      hide Inv, Pool.Valid;
      var Uploading(batch, attempt) := workers[w];
      UploadedInPool(State(), w);
      SucceededKeeps(State(), w);
      FailedKeeps(State(), w);
      Count(pool.batches[batch].records);
      if ok {
        stats := stats.(sentRecords := stats.sentRecords + pool.batches[batch].recordCount,
                        acknowledgedRecords := stats.acknowledgedRecords + replyAccepted);
        history := history.(acknowledged := history.acknowledged + multiset(pool.batches[batch].records),
                            honest := history.honest && replyAccepted == pool.batches[batch].recordCount);
        workers := workers[w := Resolved(batch)];
      } else if attempt < config.maxRetries {
        workers := workers[w := Uploading(batch, attempt + 1)];
      } else {
        workers := workers[w := Exhausted(batch)];
      }
    }

    method DropAfterRetries(w: nat)
      requires Valid() && w < |workers| && workers[w].Exhausted?
      modifies this
      ensures Valid() && State() == GaveUp(old(State()), w)
    {
      hide Inv, Pool.Valid;
      var batch := workers[w].batch;
      UploadedInPool(State(), w);
      GaveUpKeeps(State(), w);
      Count(pool.batches[batch].records);
      stats := stats.(droppedAfterRetries := stats.droppedAfterRetries + pool.batches[batch].recordCount);
      history := history.(dropped := history.dropped + multiset(pool.batches[batch].records));
      workers := workers[w := Resolved(batch)];
    }

    method CompleteActive(w: nat)
      requires Valid() && w < |workers| && workers[w].Resolved?
      modifies this, pool, pool.batches, pool.freeFlags
      ensures Valid() && pool.batches == old(pool.batches) && pool.freeFlags == old(pool.freeFlags)
      ensures old(State()).pool.Valid() && State() == Returned(old(State()), w)
    {
      hide Inv, Pool.Released, Pool.Valid;
      ghost var before := State();
      var batch := workers[w].batch;
      ReturnedKeeps(before, w);
      UploadedInPool(before, w);
      PoolShape(before.pool);
      activeRecords := activeRecords - pool.batches[batch].recordCount;
      pool.Release(batch);
      workers := workers[w := Idle];
    }

    method FlushBegin() returns (waiting: bool)
      requires Valid()
      modifies this
      ensures Valid() && State() == FlushStarted(old(State())) && waiting == (started && !stopping)
    {
      hide Inv, Pool.Valid, Seal;
      FlushStartedKeeps(State());
      ReadyInPool(State());
      if !started || stopping {
        return false;
      }
      SealCurrent();
      return true;
    }

    method StopBegin()
      requires Valid()
      modifies this
      ensures Valid() && State() == StopStarted(old(State()))
    {
      hide Inv, Pool.Valid, Seal;
      StopStartedKeeps(State());
      ReadyInPool(State());
      if started {
        stopping := true;
        SealCurrent();
      }
    }

    /** The end of stop. Its clean-up of left-over batches finds none, so it is as if it were not there. */
    method StopEnd()
      requires Valid() && started && Joined(State())
      modifies this, pool, pool.batches, pool.freeFlags
      ensures Valid() && pool.batches == old(pool.batches) && pool.freeFlags == old(pool.freeFlags)
      ensures State() == old(State()).(workers := [], started := false)
      ensures stats.acceptedRecords == stats.sentRecords + stats.droppedAfterRetries
      ensures history.honest ==> stats.acceptedRecords == stats.acknowledgedRecords + stats.droppedAfterRetries
    {
      hide Inv, Joined, Pool.Valid, Pool.Released, AllFree;
      StopDrains(State());
      StoppedKeeps(State());
      workers := [];
      started := false;
      ReleaseLeftOver();
      queuedRecords, queuedBytes := 0, 0;
    }

    method ReleaseLeftOver()
      requires pool.batches.Length == pool.freeFlags.Length
      modifies this`current, this`ready, pool, pool.batches, pool.freeFlags
      ensures pool.batches == old(pool.batches) && pool.freeFlags == old(pool.freeFlags)
      ensures current.None? && ready == []
      ensures old(current).None? && old(ready) == [] ==> pool.State() == old(pool.State())
    {
      hide Pool.Released;
      if current.Some? {
        pool.Release(current.value);
        current := None;
      }
      for i := 0 to |ready|
        invariant pool.batches == old(pool.batches) && pool.freeFlags == old(pool.freeFlags)
        invariant ready == old(ready) && current.None?
        invariant old(current).None? && old(ready) == [] ==> pool.State() == old(pool.State())
      {
        pool.Release(ready[i]);
      }
      ghost var left := pool.State();
      ready := [];
      assert pool.State() == left;
    }

    method Start(poolBytes: nat, size: nat, concurrency: nat, retries: nat) returns (ok: bool)
      requires Valid() && !started
      modifies this, pool
      ensures Valid() && State() == Started(old(State()), poolBytes, size, concurrency, retries)
    {
      hide Inv, Init, WorkerCount, DefaultOr;
      StartedKeeps(State(), poolBytes, size, concurrency, retries);
      var bytesPerBatch, n := DefaultOr(size, DEFAULT_BATCH_BYTES), WorkerCount(concurrency);
      ok := pool.InitPool(DefaultOr(poolBytes, DEFAULT_POOL_BYTES), bytesPerBatch, n + 2);
      if ok {
        Reset(bytesPerBatch, n, DefaultOr(retries, DEFAULT_MAX_RETRIES));
      }
    }

    method Reset(size: nat, n: nat, retries: nat)
      modifies this
      ensures Counters() && State() == NewSender(old(pool.State()), size, n, retries)
    {
      ghost var empty := pool.State();
      config, current, ready, workers := Config(size, retries), None, [], seq(n, i => Idle);
      started, stopping := true, false;
      ResetCounters();
      assert pool.State() == empty;
    }

    method ResetCounters()
      modifies this`stats, this`history, this`queuedRecords, this`queuedBytes, this`activeRecords
      ensures Counters() && history.accepted == history.acknowledged == history.dropped == multiset{} && history.honest
      ensures queuedRecords == queuedBytes == activeRecords == 0
    {
      queuedRecords, queuedBytes, activeRecords := 0, 0, 0;
      stats := Stats(0, 0, 0, 0);
      history := History(multiset{}, multiset{}, multiset{}, true);
    }
  }

  lemma PopBounds(s: Sender, expired: bool)
    requires Inv(s)
    ensures s.current.Some? ==> s.current.value < |s.pool.batches|
    ensures var t := if expired then Seal(s) else s;
            t.pool == s.pool && t.stopping == s.stopping && t.workers == s.workers
            && forall i :: 0 <= i < |t.ready| ==> t.ready[i] < |s.pool.batches|
  {
    hide Inv, Pool.Valid;
    SealInv(s);
    ReadyInPool(s);
    ReadyInPool(Seal(s));
  }

  lemma PoolShape(p: Pool)
    requires p.Valid()
    ensures |p.freeFlags| == |p.batches|
  {
  }

  lemma ReadyInPool(s: Sender)
    requires Inv(s)
    ensures s.current.Some? ==> s.current.value < |s.pool.batches|
    ensures forall i :: 0 <= i < |s.ready| ==> s.ready[i] < |s.pool.batches|
  {
    hide RecordsIn, RecordsHeld, BytesIn, HeldBy, Pool.Valid, Places, Counted, Filled;
    InQueue(s);
    forall i: nat | i in Queue(s)
      ensures i < |s.pool.batches|
    {
      InPlaces(s, i);
    }
    assert forall k :: 0 <= k < |s.ready| ==> s.ready[k] in s.ready;
  }

  lemma UploadedInPool(s: Sender, w: nat)
    requires Inv(s) && w < |s.workers| && Held(s.workers[w], false) != []
    ensures var b := Held(s.workers[w], false)[0];
            b < |s.pool.batches| && s.pool.batches[b].recordCount == |s.pool.batches[b].records| > 0
            && s.pool.batches[b].payload != []
  {
    hide RecordsIn, RecordsHeld, BytesIn, HeldBy, Pool.Valid, Places, Counted, Concat;
    var b := Held(s.workers[w], false)[0];
    HeldOne(s.workers, w);
    assert b in multiset(Held(s.workers[w], false));
    assert b in HeldBy(s.workers, false);
    InPlaces(s, b);
    assert BatchOk(s.pool.batches[b], s.batchBytes);
  }
}
