/** Whole runs of the batch sender: the invariant holds in every state, and stop and flush drain. */
module SenderRuns {
  import opened Bytes
  import opened Wrappers
  import opened BatchPool
  import opened BatchSender
  import opened SenderInvariant
  import opened AuditRecord
  import opened RecordParser

  /** A worker gives its batch back; the pool's release is never a no-op here. */
  lemma ReturnedKeeps(s: Sender, w: nat)
    requires Inv(s) && w < |s.workers| && s.workers[w].Resolved?
    ensures s.pool.Valid() && Inv(Returned(s, w)) && Returned(s, w).accepted == s.accepted
    ensures Returned(s, w).pool.freeStack == s.pool.freeStack + [s.workers[w].batch]
  {
    hide HeldBy, RecordsIn, BytesIn, RecordsHeld, Pool.Valid, BatchOk, Queue, Places;
    var b := s.workers[w].batch;
    HeldOne(s.workers, w);
    assert b in HeldBy(s.workers, false);
    InPlaces(s, b);
    ReleasedPool(s, b);
    ReturnedOwned(s, w);
    ReturnedFilled(s, w);
    ReturnedCounted(s, w);
    assert Returned(s, w).current.Some? ==> Returned(s, w).current.value != b by {
      assert s.current.Some? ==> s.current.value in Queue(s) by { InQueue(s); }
    }
  }

  lemma InQueue(s: Sender)
    ensures s.current.Some? ==> s.current.value in Queue(s)
    ensures forall i :: i in s.ready ==> i in Queue(s)
  {
  }

  lemma ReleasedPool(s: Sender, b: nat)
    requires Owned(s) && b in HeldBy(s.workers, false)
    ensures b < |s.pool.batches| && s.pool.Released(b).Valid()
    ensures s.pool.Released(b).freeStack == s.pool.freeStack + [b]
    ensures s.pool.Released(b).batches == s.pool.batches[b := EMPTY_BATCH]
  {
    hide HeldBy, Places, Queue;
    InPlaces(s, b);
    ReleaseKeeps(s.pool, b);
  }

  lemma ReturnedHeld(batches: seq<Batch>, workers: seq<Phase>, w: nat)
    requires w < |workers| && workers[w].Resolved?
    ensures HeldBy(workers, false) == HeldBy(workers[w := Idle], false) + multiset{workers[w].batch}
    ensures RecordsHeld(batches, workers, false)
              == RecordsHeld(batches, workers[w := Idle], false) + RecordsAt(batches, workers[w].batch)
    ensures RecordsHeld(batches, workers, true) == RecordsHeld(batches, workers[w := Idle], true)
  {
    hide HeldBy, RecordsHeld, RecordsIn;
    Exchange(workers, w, Idle, false);
    ExchangeRecords(batches, workers, w, Idle, false);
    SameHeld(batches, workers, w, Idle, true);
    NoRecords(batches);
    RecordsOne(batches, workers[w].batch);
    assert RecordsIn(batches, Held(Idle, false)) == multiset{};
    assert multiset(Held(Idle, false)) == multiset{};
  }

  lemma ReturnedOwned(s: Sender, w: nat)
    requires Owned(s) && w < |s.workers| && s.workers[w].Resolved?
    ensures Owned(Returned(s, w))
  {
    hide HeldBy, RecordsHeld, Pool.Valid;
    var b := s.workers[w].batch;
    ReturnedHeld(s.pool.batches, s.workers, w);
    assert b in HeldBy(s.workers, false);
    ReleasedPool(s, b);
    assert Places(Returned(s, w)) == Places(s);
  }

  lemma ReturnedFilled(s: Sender, w: nat)
    requires Owned(s) && Filled(s) && w < |s.workers| && s.workers[w].Resolved?
    ensures Filled(Returned(s, w))
  {
    hide HeldBy, RecordsHeld, Pool.Valid, Places, Queue;
    var b, t := s.workers[w].batch, Returned(s, w);
    ReturnedHeld(s.pool.batches, s.workers, w);
    assert b in HeldBy(s.workers, false);
    ReleasedPool(s, b);
    ReturnedOwned(s, w);
    assert b in t.pool.freeStack;
    InQueue(s);
    forall i: nat | i in t.ready || i in HeldBy(t.workers, false)
      ensures BatchAt(t, i).recordCount > 0
    {
      InPlaces(s, b);
      InPlaces(t, i);
      assert i != b;
      assert i in s.ready || i in HeldBy(s.workers, false);
    }
  }

  lemma ReturnedCounted(s: Sender, w: nat)
    requires Owned(s) && Filled(s) && Counted(s) && w < |s.workers| && s.workers[w].Resolved?
    ensures Counted(Returned(s, w))
  {
    hide HeldBy, RecordsHeld, RecordsIn, BytesIn, Pool.Valid, Places, Queue, Concat;
    var b, t := s.workers[w].batch, Returned(s, w);
    ReturnedHeld(s.pool.batches, s.workers, w);
    assert b in HeldBy(s.workers, false);
    ReleasedPool(s, b);
    ReturnedOwned(s, w);
    assert b in t.pool.freeStack;
    InPlaces(s, b);
    InPlaces(t, b);
    Elsewhere(s.pool.batches, Queue(s), b, EMPTY_BATCH);
    ElsewhereHeld(s.pool.batches, t.workers, b, EMPTY_BATCH, false);
    ElsewhereHeld(s.pool.batches, t.workers, b, EMPTY_BATCH, true);
    SameLists(s, t);
    assert BatchOk(s.pool.batches[b], s.batchBytes);
    Count(s.pool.batches[b].records);
  }

  // Start, flush and stop.

  lemma {:induction false} AllIdle(batches: seq<Batch>, workers: seq<Phase>)
    requires forall w :: 0 <= w < |workers| ==> Held(workers[w], false) == []
    ensures forall open :: HeldBy(workers, open) == multiset{} && RecordsHeld(batches, workers, open) == multiset{}
  {
    if workers != [] {
      assert Held(workers[0], false) == [];
      AllIdle(batches, workers[1..]);
    }
  }

  /** A new sender satisfies the invariant: every batch is free. */
  lemma NewSenderInv(count: nat, batchBytes: nat, concurrency: nat, maxRetries: nat)
    requires concurrency > 0
    ensures Inv(NewSender(FreshPool(count), batchBytes, concurrency, maxRetries))
  {
    hide HeldBy, RecordsHeld;
    var s := NewSender(FreshPool(count), batchBytes, concurrency, maxRetries);
    FreshPoolValid(count);
    AllIdle(s.pool.batches, s.workers);
    OnlyFree(s);
  }

  lemma OnlyFree(s: Sender)
    requires s.pool.Valid() && Queue(s) == [] && HeldBy(s.workers, false) == multiset{}
    requires forall i :: 0 <= i < |s.pool.batches| ==> i in s.pool.freeStack
    ensures Owned(s)
  {
    hide HeldBy, Queue;
    var f := multiset(s.pool.freeStack);
    Distinct(s.pool.freeStack);
    forall i: nat
      ensures Places(s)[i] == if i < |s.pool.batches| then 1 else 0
    {
      assert Places(s)[i] == f[i];
      assert i in s.pool.freeStack <==> i < |s.pool.batches|;
    }
  }

  lemma {:induction false} Distinct(s: seq<nat>)
    requires forall i, j :: 0 <= i < j < |s| ==> s[i] != s[j]
    ensures forall x :: x in s ==> multiset(s)[x] == 1
  {
    if s != [] {
      var last := s[|s| - 1];
      assert s == s[..|s| - 1] + [last];
      Distinct(s[..|s| - 1]);
      assert last !in s[..|s| - 1];
    }
  }

  lemma StartedKeeps(s: Sender, poolBytes: nat, size: nat, concurrency: nat, retries: nat)
    requires Inv(s)
    ensures Inv(Started(s, poolBytes, size, concurrency, retries))
  {
    hide Inv;
    var n := DefaultOr(poolBytes, DEFAULT_POOL_BYTES) / DefaultOr(size, DEFAULT_BATCH_BYTES);
    NewSenderInv(n, DefaultOr(size, DEFAULT_BATCH_BYTES), WorkerCount(concurrency),
                 DefaultOr(retries, DEFAULT_MAX_RETRIES));
  }

  lemma FlushStartedKeeps(s: Sender)
    requires Inv(s)
    ensures Inv(FlushStarted(s)) && FlushStarted(s).accepted == s.accepted
    ensures s.started && !s.stopping ==> FlushStarted(s).current.None?
  {
    hide Inv;
    SealInv(s);
    SealAccepted(s);
  }

  lemma StopStartedKeeps(s: Sender)
    requires Inv(s)
    ensures Inv(StopStarted(s)) && StopStarted(s).accepted == s.accepted
    ensures s.started ==> StopStarted(s).stopping && StopStarted(s).current.None?
  {
    hide HeldBy, RecordsHeld, RecordsIn, BytesIn, Pool.Valid, Places, BatchOk, Queue;
    SealInv(s);
    SealAccepted(s);
    if s.started {
      var t := Seal(s);
      assert StopStarted(s) == t.(stopping := true);
      SameLists(t, t.(stopping := true));
      SamePlaces(t, t.(stopping := true));
      assert forall i :: BatchAt(t.(stopping := true), i) == BatchAt(t, i);
    }
  }

  /** Nothing is left when every worker has exited: all batches are free, every accepted record was
    * either acknowledged or dropped after retries, and the last clean-up of stop has nothing to do. */
  lemma StopDrains(s: Sender)
    requires Inv(s) && s.started && Joined(s)
    ensures s.ready == [] && s.current.None? && s.queuedRecords == 0 && s.queuedBytes == 0 && s.activeRecords == 0
    ensures s.accepted == s.acknowledged + s.dropped
    ensures |s.accepted| == |s.acknowledged| + |s.dropped|
    ensures AllFree(s) && Stopped(s) == s.(workers := [], started := false)
  {
    hide HeldBy, RecordsHeld, Pool.Valid;
    assert s.workers[0].Exited?;
    AllIdle(s.pool.batches, s.workers);
    NoRecords(s.pool.batches);
    assert Queue(s) == [];
    EmptyHanded(s);
  }

  predicate AllFree(s: Sender)
  {
    forall i :: 0 <= i < |s.pool.batches| ==> i in s.pool.freeStack
  }

  lemma EmptyHanded(s: Sender)
    requires Owned(s) && Queue(s) == [] && HeldBy(s.workers, false) == multiset{}
    ensures AllFree(s)
  {
    hide HeldBy, Queue, Pool.Valid, Places;
    forall i | 0 <= i < |s.pool.batches|
      ensures i in s.pool.freeStack
    {
      InPlaces(s, i);
    }
  }

  lemma StoppedKeeps(s: Sender)
    requires Inv(s) && s.started && Joined(s)
    ensures s.pool.Valid() && Inv(Stopped(s)) && Stopped(s).accepted == s.accepted
  {
    hide RecordsHeld, Pool.Valid, HeldBy, RecordsIn, BytesIn;
    StopDrains(s);
    AllIdle(s.pool.batches, s.workers);
    AllIdle(s.pool.batches, []);
    var t := Stopped(s);
    assert t == s.(workers := [], started := false);
    SameLists(s, t);
    SamePlaces(s, t);
  }

  predicate Loaded(batches: seq<Batch>, i: nat)
  {
    i < |batches| && |batches[i].records| > 0
  }

  lemma {:induction false} NothingIn(batches: seq<Batch>, owned: seq<nat>)
    requires forall i :: 0 <= i < |owned| ==> Loaded(batches, owned[i])
    ensures RecordsIn(batches, owned) == multiset{} ==> owned == []
  {
    if owned != [] {
      var r := batches[owned[0]].records[0];
      assert r in RecordsAt(batches, owned[0]);
      assert r in RecordsIn(batches, owned);
    }
  }

  lemma {:induction false} NothingHeld(batches: seq<Batch>, workers: seq<Phase>)
    requires forall i: nat :: i in HeldBy(workers, false) ==> Loaded(batches, i)
    requires RecordsHeld(batches, workers, false) == multiset{}
    ensures HeldBy(workers, false) == multiset{}
    ensures forall w :: 0 <= w < |workers| ==> Held(workers[w], false) == []
  {
    if workers != [] {
      var own, rest := Held(workers[0], false), workers[1..];
      HeadAndRest(batches, workers);
      Parts(RecordsIn(batches, own), RecordsHeld(batches, rest, false));
      NothingIn(batches, own);
      NothingHeld(batches, rest);
    }
  }

  lemma HeadAndRest(batches: seq<Batch>, workers: seq<Phase>)
    requires workers != []
    requires forall i: nat :: i in HeldBy(workers, false) ==> Loaded(batches, i)
    ensures HeldBy(workers, false) == multiset(Held(workers[0], false)) + HeldBy(workers[1..], false)
    ensures RecordsHeld(batches, workers, false)
              == RecordsIn(batches, Held(workers[0], false)) + RecordsHeld(batches, workers[1..], false)
    ensures forall i: nat :: i in HeldBy(workers[1..], false) ==> Loaded(batches, i)
    ensures forall i :: 0 <= i < |Held(workers[0], false)| ==> Loaded(batches, Held(workers[0], false)[i])
  {
    hide Held, RecordsIn, Loaded;
    var own := Held(workers[0], false);
    forall i: nat | i in HeldBy(workers[1..], false) || i in own
      ensures Loaded(batches, i)
    {
      assert i in HeldBy(workers, false);
    }
  }

  lemma Parts<T>(a: multiset<T>, b: multiset<T>)
    requires a + b == multiset{}
    ensures a == multiset{} && b == multiset{}
  {
    assert |a| + |b| == |a + b|;
  }

  /** The condition on which flush returns means exactly that nothing is on its way: no batch is queued
    * or held by a worker. Then every accepted record was acknowledged or dropped after retries. */
  lemma FlushDrains(s: Sender)
    requires Inv(s)
    ensures Flushed(s) <==> s.ready == [] && s.current.None? && HeldBy(s.workers, false) == multiset{}
    ensures Flushed(s) ==> s.accepted == s.acknowledged + s.dropped && AllFree(s) && s.queuedBytes == 0
  {
    hide HeldBy, RecordsHeld, RecordsIn, BytesIn, Pool.Valid, Concat, Places;
    var batches := s.pool.batches;
    InRange(s);
    NoRecords(batches);
    if Flushed(s) {
      NothingIn(batches, Queue(s));
      NothingHeld(batches, s.workers);
      AllIdle(batches, s.workers);
      assert Queue(s) == [];
      EmptyHanded(s);
      NoBytes(batches);
    }
    if Queue(s) == [] && HeldBy(s.workers, false) == multiset{} {
      NoneHeld(s.workers);
      AllIdle(batches, s.workers);
    }
  }

  lemma NoBytes(batches: seq<Batch>)
    ensures BytesIn(batches, []) == 0
  {
  }

  lemma {:induction false} NoneHeld(workers: seq<Phase>)
    requires HeldBy(workers, false) == multiset{}
    ensures forall w :: 0 <= w < |workers| ==> Held(workers[w], false) == []
  {
    forall w | 0 <= w < |workers|
      ensures Held(workers[w], false) == []
    {
      HeldOne(workers, w);
      assert |multiset(Held(workers[w], false))| == 0;
    }
  }

  /** Whatever is queued or held is a pool batch with records in it. */
  lemma InRange(s: Sender)
    requires Inv(s)
    ensures forall i: nat :: i in HeldBy(s.workers, false) ==> Loaded(s.pool.batches, i)
    ensures forall i :: 0 <= i < |Queue(s)| ==> Loaded(s.pool.batches, Queue(s)[i])
  {
    hide HeldBy, RecordsHeld, RecordsIn, BytesIn, Pool.Valid, Concat, Places, Counted;
    assert forall i :: 0 <= i < |Queue(s)| ==> Queue(s)[i] in Queue(s);
    forall i: nat | i in HeldBy(s.workers, false) || i in Queue(s)
      ensures Loaded(s.pool.batches, i)
    {
      InPlaces(s, i);
      assert BatchOk(s.pool.batches[i], s.batchBytes);
      assert i in s.ready || s.current == Some(i) || i in HeldBy(s.workers, false);
    }
  }

  // Runs.

  datatype Action =
    | Start(poolBytes: nat, size: nat, concurrency: nat, retries: nat)
    | SubmitRecord(record: bytes, lateOpen: bool)
    | PopReady(w: nat, late: bool)
    | Fail(w: nat)
    | Succeed(w: nat)
    | GiveUp(w: nat)
    | Return(w: nat)
    | Flush
    | BeginStop
    | EndStop

  /** When the step can be taken at all. */
  ghost predicate Possible(s: Sender, a: Action)
  {
    match a
    case Start(_, _, _, _) => !s.started
    case SubmitRecord(_, _) => true
    case PopReady(w, _) => w < |s.workers| && s.workers[w].Idle?
    case Fail(w) => w < |s.workers| && s.workers[w].Uploading?
    case Succeed(w) => w < |s.workers| && s.workers[w].Uploading?
    case GiveUp(w) => w < |s.workers| && s.workers[w].Exhausted?
    case Return(w) => w < |s.workers| && s.workers[w].Resolved?
    case Flush => true
    case BeginStop => true
    case EndStop => s.started && Joined(s)
  }

  ghost function Next(s: Sender, a: Action): Sender
    requires Inv(s) && Possible(s, a)
  {
    match a
    case Start(poolBytes, size, concurrency, retries) => Started(s, poolBytes, size, concurrency, retries)
    case SubmitRecord(record, lateOpen) => SubmitKeeps(s, record, lateOpen); Submit(s, record, lateOpen).0
    case PopReady(w, late) => Pop(s, w, late)
    case Fail(w) => Failed(s, w)
    case Succeed(w) => Succeeded(s, w)
    case GiveUp(w) => GaveUp(s, w)
    case Return(w) => Returned(s, w)
    case Flush => FlushStarted(s)
    case BeginStop => StopStarted(s)
    case EndStop => Stopped(s)
  }

  /** Every step keeps the invariant; only a submission that is taken in, or a restart, changes what
    * counts as accepted. */
  lemma NextKeeps(s: Sender, a: Action)
    requires Inv(s) && Possible(s, a)
    ensures Inv(Next(s, a))
    ensures !a.Start? && !a.SubmitRecord? ==> Next(s, a).accepted == s.accepted
  {
    hide Inv, Pop, Failed, Succeeded, GaveUp, Returned, FlushStarted, StopStarted, Stopped, Joined;
    match a {
      case Start(poolBytes, size, concurrency, retries) =>
        StartedKeeps(s, poolBytes, size, concurrency, retries);
      case SubmitRecord(record, lateOpen) => SubmitKeeps(s, record, lateOpen);
      case PopReady(w, late) => PopKeeps(s, w, late);
      case Fail(w) => FailedKeeps(s, w);
      case Succeed(w) => SucceededKeeps(s, w);
      case GiveUp(w) => GaveUpKeeps(s, w);
      case Return(w) => ReturnedKeeps(s, w);
      case Flush => FlushStartedKeeps(s);
      case BeginStop => StopStartedKeeps(s);
      case EndStop => StoppedKeeps(s);
    }
  }

  /** A sender that was never started. */
  const UNSTARTED := Sender(Pool([], [], []), 0, None, [], [], false, false, 0, 0, 0, 0, multiset{}, multiset{},
                            multiset{})

  ghost predicate Step(s: Sender, a: Action, t: Sender)
  {
    Possible(s, a) && (Inv(s) ==> t == Next(s, a))
  }

  ghost predicate IsRun(states: seq<Sender>, actions: seq<Action>)
  {
    && |states| == |actions| + 1 && states[0] == UNSTARTED
    && forall i :: 0 <= i < |actions| ==> Step(states[i], actions[i], states[i + 1])
  }

  lemma UnstartedInv()
    ensures Inv(UNSTARTED)
  {
    OnlyFree(UNSTARTED);
  }

  /** The invariant holds in every state of every run, through any number of starts and stops. */
  lemma {:induction false} InEveryState(states: seq<Sender>, actions: seq<Action>, i: nat)
    requires IsRun(states, actions) && i < |states|
    ensures Inv(states[i])
  {
    hide Inv, Next, Possible;
    if i == 0 {
      UnstartedInv();
    } else {
      InEveryState(states, actions, i - 1);
      assert Step(states[i - 1], actions[i - 1], states[i]);
      NextKeeps(states[i - 1], actions[i - 1]);
    }
  }

  /** The account in every state, as the counters show it. A record whose upload is still undecided is
    * active; a batch that is resolved but not yet back in the pool is active and already settled. */
  lemma Account(states: seq<Sender>, actions: seq<Action>, i: nat) returns (undecided: nat)
    requires IsRun(states, actions) && i < |states|
    ensures var s := states[i];
            undecided == |RecordsHeld(s.pool.batches, s.workers, true)| && undecided <= s.activeRecords
            && |s.accepted| == |s.acknowledged| + |s.dropped| + s.queuedRecords + undecided
  {
    hide RecordsHeld, RecordsIn, BytesIn, HeldBy, Pool.Valid, Places;
    var s := states[i];
    InEveryState(states, actions, i);
    undecided := |RecordsHeld(s.pool.batches, s.workers, true)|;
    OpenIsHeld(s.pool.batches, s.workers);
  }

  lemma {:induction false} OpenIsHeld(batches: seq<Batch>, workers: seq<Phase>)
    ensures |RecordsHeld(batches, workers, true)| <= |RecordsHeld(batches, workers, false)|
    ensures HeldBy(workers, true) <= HeldBy(workers, false)
  {
    if workers != [] {
      OpenIsHeld(batches, workers[1..]);
      NoRecords(batches);
    }
  }

  lemma {:induction false} HeldRecords(batches: seq<Batch>, workers: seq<Phase>, w: nat)
    requires w < |workers|
    ensures RecordsIn(batches, Held(workers[w], true)) <= RecordsHeld(batches, workers, true)
  {
    hide RecordsIn, Held;
    if w > 0 {
      HeldRecords(batches, workers[1..], w - 1);
    }
  }

  /** A worker uploads nothing but accepted records. */
  lemma UploadAccepted(s: Sender, w: nat)
    requires Inv(s) && w < |s.workers| && s.workers[w].Uploading?
    ensures var b := BatchAt(s, s.workers[w].batch);
            forall k :: 0 <= k < |b.records| ==> b.records[k] in s.accepted
  {
    hide HeldBy, RecordsHeld, RecordsIn, BytesIn, Pool.Valid, Places, Queue, Concat;
    var i := s.workers[w].batch;
    var b := BatchAt(s, i);
    HeldRecords(s.pool.batches, s.workers, w);
    RecordsOne(s.pool.batches, i);
    forall k | 0 <= k < |b.records|
      ensures b.records[k] in s.accepted
    {
      assert b.records[k] in multiset(b.records);
      assert b.records[k] in RecordsHeld(s.pool.batches, s.workers, true);
    }
  }

  /** Whatever a worker uploads decodes, record by record, with the record count that is sent along. */
  lemma UploadDecodes(s: Sender, w: nat)
    requires Inv(s) && w < |s.workers| && s.workers[w].Uploading?
    requires forall r :: r in s.accepted ==> ValidRecord(r)
    ensures var b := BatchAt(s, s.workers[w].batch);
            b.recordCount > 0 && b.payload != [] && |b.payload| <= s.batchBytes && Parse(b.payload).Parsed?
            && |Parse(b.payload).events| == b.recordCount && Records(Parse(b.payload).events) == b.records
  {
    hide HeldBy, RecordsHeld, RecordsIn, BytesIn, Pool.Valid, Places, ValidRecord, Queue, Concat, ParseFrom;
    var i := s.workers[w].batch;
    HeldOne(s.workers, w);
    assert i in HeldBy(s.workers, false);
    InPlaces(s, i);
    var b := s.pool.batches[i];
    assert BatchOk(b, s.batchBytes);
    UploadAccepted(s, w);
    assert b.payload[0..] == b.payload;
    ParseComplete(b.payload, 0, b.records);
  }
}
