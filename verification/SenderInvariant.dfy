/** What every step of the batch sender keeps. */
module SenderInvariant {
  import opened Bytes
  import opened Wrappers
  import opened BatchPool
  import opened BatchSender
  import opened Multisets

  // Sums over lists of batches and over workers.

  lemma {:induction false} RecordsJoin(batches: seq<Batch>, first: seq<nat>, second: seq<nat>)
    ensures RecordsIn(batches, first + second) == RecordsIn(batches, first) + RecordsIn(batches, second)
    ensures BytesIn(batches, first + second) == BytesIn(batches, first) + BytesIn(batches, second)
  {
    if first == [] {
      assert first + second == second;
    } else {
      assert (first + second)[1..] == first[1..] + second;
      RecordsJoin(batches, first[1..], second);
    }
  }

  lemma Beside<T>(a: multiset<T>, b: multiset<T>, c: multiset<T>, d: multiset<T>, e: multiset<T>)
    requires b + c == d + e
    ensures (a + b) + c == (a + d) + e
  {
    assert (a + b) + c == a + (b + c);
    assert (a + d) + e == a + (d + e);
  }

  lemma {:induction false} Exchange(workers: seq<Phase>, w: nat, p: Phase, open: bool)
    requires w < |workers|
    ensures HeldBy(workers[w := p], open) + multiset(Held(workers[w], open))
              == HeldBy(workers, open) + multiset(Held(p, open))
    decreases w
  {
    hide Held;
    assert workers[w := p][0] == if w == 0 then p else workers[0];
    if w == 0 {
      assert workers[w := p][1..] == workers[1..];
    } else {
      assert workers[w := p][1..] == workers[1..][w - 1 := p];
      Exchange(workers[1..], w - 1, p, open);
      Beside(multiset(Held(workers[0], open)), HeldBy(workers[1..][w - 1 := p], open), multiset(Held(workers[w], open)),
             HeldBy(workers[1..], open), multiset(Held(p, open)));
    }
  }

  lemma {:induction false} ExchangeRecords(batches: seq<Batch>, workers: seq<Phase>, w: nat, p: Phase, open: bool)
    requires w < |workers|
    ensures RecordsHeld(batches, workers[w := p], open) + RecordsIn(batches, Held(workers[w], open))
            == RecordsHeld(batches, workers, open) + RecordsIn(batches, Held(p, open))
    decreases w
  {
    hide RecordsIn, Held;
    assert workers[w := p][0] == if w == 0 then p else workers[0];
    if w == 0 {
      assert workers[w := p][1..] == workers[1..];
    } else {
      assert workers[w := p][1..] == workers[1..][w - 1 := p];
      ExchangeRecords(batches, workers[1..], w - 1, p, open);
      Beside(RecordsIn(batches, Held(workers[0], open)),
             RecordsHeld(batches, workers[1..][w - 1 := p], open), RecordsIn(batches, Held(workers[w], open)),
             RecordsHeld(batches, workers[1..], open), RecordsIn(batches, Held(p, open)));
    }
  }

  /** A change to a batch does not show in a sum that the batch is not part of. */
  lemma {:induction false} Elsewhere(batches: seq<Batch>, owned: seq<nat>, i: nat, b: Batch)
    requires i < |batches| && i !in owned
    ensures RecordsIn(batches[i := b], owned) == RecordsIn(batches, owned)
    ensures BytesIn(batches[i := b], owned) == BytesIn(batches, owned)
  {
    if owned != [] {
      Elsewhere(batches, owned[1..], i, b);
    }
  }

  lemma {:induction false} ElsewhereHeld(batches: seq<Batch>, workers: seq<Phase>, i: nat, b: Batch, open: bool)
    requires i < |batches| && i !in HeldBy(workers, false)
    ensures RecordsHeld(batches[i := b], workers, open) == RecordsHeld(batches, workers, open)
  {
    if workers != [] {
      Elsewhere(batches, Held(workers[0], open), i, b);
      ElsewhereHeld(batches, workers[1..], i, b, open);
    }
  }

  /** The batch a worker holds is among the held ones. */
  lemma {:induction false} HeldOne(workers: seq<Phase>, w: nat)
    requires w < |workers|
    ensures multiset(Held(workers[w], false)) <= HeldBy(workers, false)
  {
    if w > 0 {
      HeldOne(workers[1..], w - 1);
    }
  }

  lemma {:induction false} RecordsOne(batches: seq<Batch>, i: nat)
    ensures RecordsIn(batches, [i]) == RecordsAt(batches, i) && BytesIn(batches, [i]) == BytesAt(batches, i)
  {
  }

  // Small facts about places.

  lemma InPlaces(s: Sender, i: nat)
    requires Owned(s)
    ensures i in Queue(s) || i in HeldBy(s.workers, false) || i in s.pool.freeStack <==> i < |s.pool.batches|
    ensures i in Queue(s) ==> i !in HeldBy(s.workers, false) && i !in s.pool.freeStack
    ensures i in HeldBy(s.workers, false) ==> i !in s.pool.freeStack
  {
    var q, h, f := multiset(Queue(s)), HeldBy(s.workers, false), multiset(s.pool.freeStack);
    assert Places(s)[i] == f[i] + q[i] + h[i];
    assert i in Queue(s) <==> q[i] > 0;
    assert i in s.pool.freeStack <==> f[i] > 0;
  }

  lemma SealKeeps(s: Sender)
    requires Core(s)
    ensures Core(Seal(s)) && Queue(Seal(s)) == Queue(s) && Seal(s).pool == s.pool && Seal(s).workers == s.workers
    ensures Seal(s).current.None? || (Seal(s) == s && BatchAt(s, s.current.value).recordCount == 0)
  {
    hide Held, HeldBy, Pool.Valid, RecordsIn, BytesIn, RecordsHeld, BatchOk;
    if Seal(s) != s {
      SameQueue(s, Seal(s));
      var t := Seal(s);
      assert t.ready == s.ready + [s.current.value];
      forall i: nat | i in t.ready || i in HeldBy(t.workers, false)
        ensures BatchAt(t, i).recordCount > 0
      {
        assert i in s.ready || i == s.current.value || i in HeldBy(s.workers, false);
        assert BatchAt(t, i) == BatchAt(s, i);
      }
    }
  }

  /** Ownership and sums depend on the queue as a whole, not on where the open batch starts. */
  lemma SameQueue(s: Sender, t: Sender)
    requires Queue(t) == Queue(s) && t == s.(ready := t.ready, current := t.current)
    requires Owned(s) && Counted(s)
    ensures Owned(t) && Counted(t)
  {
    hide Held, HeldBy, Pool.Valid, RecordsIn, BytesIn, RecordsHeld, Queue;
    assert Places(t) == Places(s);
  }

  lemma SealInv(s: Sender)
    requires Inv(s)
    ensures Inv(Seal(s)) && Seal(s).current.None?
  {
    hide Core;
    SealKeeps(s);
  }

  // Submitting a record.

  lemma OpenKeeps(s: Sender)
    requires Core(s) && s.current.None? && !s.stopping
    ensures Core(Open(s)) && (Open(s).current.Some? ==> BatchAt(Open(s), Open(s).current.value) == EMPTY_BATCH)
  {
    hide Held, HeldBy, Pool.Valid, RecordsIn, BytesIn, RecordsHeld, BatchOk;
    AcquireKeeps(s.pool);
    if s.pool.freeStack != [] {
      OpenOwned(s);
      OpenFilled(s);
      OpenCounted(s);
    }
  }

  lemma Taken(s: Sender) returns (index: nat)
    requires Owned(s) && s.current.None? && s.pool.freeStack != []
    ensures Open(s).current == Some(index) && index < |s.pool.batches|
    ensures index !in Queue(s) && index !in HeldBy(s.workers, false)
    ensures Open(s).pool.batches == s.pool.batches[index := EMPTY_BATCH]
            && s.pool.freeStack == Open(s).pool.freeStack + [index]
  {
    hide HeldBy, Queue;
    AcquireKeeps(s.pool);
    index := s.pool.freeStack[|s.pool.freeStack| - 1];
    assert index in s.pool.freeStack;
    InPlaces(s, index);
  }

  lemma OpenOwned(s: Sender)
    requires Owned(s) && s.current.None? && s.pool.freeStack != []
    ensures Owned(Open(s))
  {
    hide Held, HeldBy;
    AcquireKeeps(s.pool);
    var index := Taken(s);
    hide Pool.Valid;
    assert Places(Open(s)) == Places(s);
  }

  lemma OpenFilled(s: Sender)
    requires Owned(s) && Filled(s) && s.current.None? && s.pool.freeStack != []
    ensures Filled(Open(s)) && BatchAt(Open(s), Open(s).current.value) == EMPTY_BATCH
  {
    hide HeldBy, Places, Pool.Valid;
    var index := Taken(s);
    var t := Open(s);
    assert t.pool.batches == s.pool.batches[index := EMPTY_BATCH];
    assert Queue(s) == s.ready;
  }

  lemma OpenCounted(s: Sender)
    requires Owned(s) && Counted(s) && s.current.None? && s.pool.freeStack != []
    ensures Counted(Open(s))
  {
    hide Held, HeldBy, Pool.Valid, RecordsIn, BytesIn, RecordsHeld, Places, BatchAt;
    var index := Taken(s);
    assert Queue(s) == s.ready;
    Elsewhere(s.pool.batches, s.ready, index, EMPTY_BATCH);
    ElsewhereHeld(s.pool.batches, s.workers, index, EMPTY_BATCH, false);
    ElsewhereHeld(s.pool.batches, s.workers, index, EMPTY_BATCH, true);
    RecordsJoin(Open(s).pool.batches, s.ready, [index]);
    RecordsOne(Open(s).pool.batches, index);
  }

  lemma AppendKeeps(s: Sender, record: bytes)
    requires Core(s) && s.current.Some? && record != []
    requires |BatchAt(s, s.current.value).payload| + |record| <= s.batchBytes
    ensures s.current.value < |s.pool.batches|
    ensures Core(Appended(s, record)) && BatchAt(Appended(s, record), s.current.value).recordCount > 0
  {
    hide HeldBy, RecordsIn, BytesIn, RecordsHeld, Concat, Counted;
    var c := s.current.value;
    assert c in Queue(s);
    InPlaces(s, c);
    AppendFilled(s, record);
    AppendCounted(s, record);
    assert Places(Appended(s, record)) == Places(s);
  }

  lemma AppendFilled(s: Sender, record: bytes)
    requires Filled(s) && s.current.Some? && s.current.value < |s.pool.batches| && record != []
    requires |BatchAt(s, s.current.value).payload| + |record| <= s.batchBytes
    ensures Filled(Appended(s, record))
  {
    hide HeldBy;
    var c := s.current.value;
    var b := s.pool.batches[c];
    assert BatchOk(b, s.batchBytes);
    ConcatAppend(b.records, record);
    var t := Appended(s, record);
    assert t.pool.batches == s.pool.batches[c := t.pool.batches[c]];
  }

  lemma AppendCounted(s: Sender, record: bytes)
    requires Owned(s) && Counted(s) && s.current.Some? && s.current.value < |s.pool.batches|
    ensures Counted(Appended(s, record))
  {
    hide Held, HeldBy, Pool.Valid, RecordsIn, BytesIn, RecordsHeld;
    var c, t := s.current.value, Appended(s, record);
    var b := t.pool.batches[c];
    assert c in Queue(s);
    InPlaces(s, c);
    NotReady(s);
    Elsewhere(s.pool.batches, s.ready, c, b);
    ElsewhereHeld(s.pool.batches, s.workers, c, b, false);
    ElsewhereHeld(s.pool.batches, s.workers, c, b, true);
    RecordsJoin(s.pool.batches, s.ready, [c]);
    RecordsJoin(t.pool.batches, s.ready, [c]);
    RecordsOne(s.pool.batches, c);
    RecordsOne(t.pool.batches, c);
    assert RecordsAt(t.pool.batches, c) == RecordsAt(s.pool.batches, c) + multiset{record};
    assert RecordsIn(t.pool.batches, Queue(t)) == RecordsIn(s.pool.batches, Queue(s)) + multiset{record};
  }

  lemma NotReady(s: Sender)
    requires Owned(s) && s.current.Some?
    ensures s.current.value !in s.ready
  {
    hide HeldBy, Pool.Valid;
    var c := s.current.value;
    assert multiset(Queue(s)) == multiset(s.ready) + multiset{c};
    assert Places(s)[c] >= multiset(s.ready)[c] + 1;
  }

  lemma MakeRoomKeeps(s: Sender, size: nat, expired: bool)
    requires Inv(s)
    ensures Inv(MakeRoom(s, size, expired))
    ensures var t := MakeRoom(s, size, expired);
            t.stopping == s.stopping && t.started == s.started && t.batchBytes == s.batchBytes
            && (t.current.Some? ==> |BatchAt(t, t.current.value).payload| + size <= t.batchBytes)
  {
    hide Core;
    SealInv(s);
    SealInv(if expired then Seal(s) else s);
  }

  /** A submission keeps the invariant; it adds exactly the record to what was accepted, or nothing. */
  lemma SubmitKeeps(s: Sender, record: bytes, expired: bool)
    requires Inv(s)
    ensures s.pool.Valid() && (s.current.Some? ==> s.current.value < |s.pool.batches|)
    ensures Inv(Submit(s, record, expired).0)
    ensures var (t, ok) := Submit(s, record, expired);
            t.accepted == s.accepted + (if ok then multiset{record} else multiset{})
  {
    hide HeldBy, Places, Pool.Valid, Filled, Counted, Orderly, Seal;
    if s.current.Some? {
      assert s.current.value in Queue(s);
      InPlaces(s, s.current.value);
    }
    if !(record == [] || !s.started || s.stopping || |record| > s.batchBytes) {
      var m := MakeRoom(s, |record|, expired);
      MakeRoomKeeps(s, |record|, expired);
      SameAccepted(s, |record|, expired);
      if m.current.None? {
        OpenKeeps(m);
      }
      var o := Open(m);
      if o.current.Some? {
        AppendKeeps(o, record);
        SealInv(Appended(o, record));
        SealAccepted(Appended(o, record));
      }
    }
  }

  lemma SealAccepted(s: Sender)
    ensures Seal(s).accepted == s.accepted && Seal(s).stopping == s.stopping
  {
  }

  lemma SameAccepted(s: Sender, size: nat, expired: bool)
    ensures MakeRoom(s, size, expired).accepted == s.accepted
  {
  }

  // The workers.

  lemma TookKeeps(s: Sender, w: nat)
    requires Core(s) && w < |s.workers| && s.workers[w].Idle? && s.ready != []
    ensures Core(Took(s, w))
  {
    hide HeldBy, RecordsIn, BytesIn, RecordsHeld, Pool.Valid, Held, BatchOk, Concat;
    TookOwned(s, w);
    TookCounted(s, w);
    TookFilled(s, w);
  }

  lemma QueueHead(s: Sender, w: nat) returns (rest: seq<nat>)
    requires w < |s.workers| && s.ready != []
    ensures Queue(s) == [s.ready[0]] + rest && Queue(Took(s, w)) == rest
  {
    rest := Queue(Took(s, w));
    assert s.ready == [s.ready[0]] + s.ready[1..];
  }

  lemma HeadHeld(workers: seq<Phase>, w: nat, b: nat)
    requires w < |workers| && workers[w].Idle?
    ensures HeldBy(workers[w := Uploading(b, 0)], false) == HeldBy(workers, false) + multiset{b}
  {
    hide HeldBy;
    Exchange(workers, w, Uploading(b, 0), false);
    assert multiset(Held(workers[w], false)) == multiset{};
    assert multiset(Held(Uploading(b, 0), false)) == multiset{b};
  }

  lemma HeadRecords(batches: seq<Batch>, workers: seq<Phase>, w: nat, b: nat, open: bool)
    requires w < |workers| && workers[w].Idle?
    ensures RecordsHeld(batches, workers[w := Uploading(b, 0)], open)
              == RecordsHeld(batches, workers, open) + RecordsAt(batches, b)
  {
    hide RecordsHeld, RecordsIn;
    ExchangeRecords(batches, workers, w, Uploading(b, 0), open);
    NoRecords(batches);
    RecordsOne(batches, b);
    assert RecordsIn(batches, Held(workers[w], open)) == multiset{};
  }

  lemma TookOwned(s: Sender, w: nat)
    requires Owned(s) && w < |s.workers| && s.workers[w].Idle? && s.ready != []
    ensures Owned(Took(s, w))
  {
    hide HeldBy, Pool.Valid, Queue;
    var rest := QueueHead(s, w);
    HeadHeld(s.workers, w, s.ready[0]);
    assert multiset(Queue(s)) == multiset{s.ready[0]} + multiset(rest);
    assert Places(Took(s, w)) == Places(s);
  }

  lemma TookFilled(s: Sender, w: nat)
    requires Filled(s) && w < |s.workers| && s.workers[w].Idle? && s.ready != []
    ensures Filled(Took(s, w))
  {
    hide HeldBy, BatchOk;
    HeadHeld(s.workers, w, s.ready[0]);
    var t := Took(s, w);
    forall i: nat | i in t.ready || i in HeldBy(t.workers, false)
      ensures BatchAt(t, i).recordCount > 0
    {
      assert i in s.ready || i == s.ready[0] || i in HeldBy(s.workers, false);
      assert BatchAt(t, i) == BatchAt(s, i);
    }
  }

  lemma TookCounted(s: Sender, w: nat)
    requires Owned(s) && Filled(s) && Counted(s) && w < |s.workers| && s.workers[w].Idle? && s.ready != []
    ensures Counted(Took(s, w))
  {
    hide HeldBy, RecordsIn, BytesIn, RecordsHeld, Pool.Valid, Queue, Concat, Places;
    var head := s.ready[0];
    var rest := QueueHead(s, w);
    assert head in Queue(s);
    InPlaces(s, head);
    assert BatchOk(s.pool.batches[head], s.batchBytes);
    RecordsJoin(s.pool.batches, [head], rest);
    RecordsOne(s.pool.batches, head);
    HeadRecords(s.pool.batches, s.workers, w, head, false);
    HeadRecords(s.pool.batches, s.workers, w, head, true);
    Count(s.pool.batches[head].records);
    ghost var out := s.acknowledged + s.dropped;
    ghost var a, q, h := RecordsAt(s.pool.batches, head), RecordsIn(s.pool.batches, rest),
      RecordsHeld(s.pool.batches, s.workers, true);
    assert out + (a + q) + h == out + q + (h + a);
  }

  lemma NoRecords(batches: seq<Batch>)
    ensures RecordsIn(batches, []) == multiset{}
  {
  }

  lemma Count(records: seq<bytes>)
    ensures |multiset(records)| == |records|
  {
  }

  /** A worker looks for work: it takes the oldest ready batch, waits, or leaves after stop. */
  lemma PopKeeps(s: Sender, w: nat, expired: bool)
    requires Inv(s) && w < |s.workers| && s.workers[w].Idle?
    ensures Inv(Pop(s, w, expired)) && Pop(s, w, expired).accepted == s.accepted
  {
    hide HeldBy, Filled, Counted, Owned, Seal;
    var t := if expired then Seal(s) else s;
    SealInv(s);
    SealKeeps(s);
    SealAccepted(s);
    if t.ready != [] {
      TookKeeps(t, w);
      assert Pop(s, w, expired) == Took(t, w);
      SameOpen(t, w);
    } else if s.stopping {
      SealInv(t);
      SealKeeps(t);
      SealAccepted(t);
      if Seal(t).ready == [] {
        LeaveKeeps(Seal(t), w);
      }
    }
  }

  lemma SameOpen(s: Sender, w: nat)
    requires w < |s.workers| && s.ready != []
    ensures Took(s, w).current == s.current && Took(s, w).pool == s.pool && Took(s, w).accepted == s.accepted
  {
  }

  lemma LeaveKeeps(s: Sender, w: nat)
    requires Inv(s) && w < |s.workers| && s.workers[w].Idle? && s.stopping && s.ready == []
    ensures Inv(s.(workers := s.workers[w := Exited]))
  {
    hide HeldBy, RecordsIn, BytesIn, RecordsHeld, Pool.Valid, BatchOk;
    MoveKeeps(s, w, Exited);
  }

  /** A worker changes phase but keeps what it holds. */
  lemma SameHeld(batches: seq<Batch>, workers: seq<Phase>, w: nat, p: Phase, open: bool)
    requires w < |workers| && Held(p, open) == Held(workers[w], open)
    ensures HeldBy(workers[w := p], open) == HeldBy(workers, open)
    ensures RecordsHeld(batches, workers[w := p], open) == RecordsHeld(batches, workers, open)
  {
    hide HeldBy, RecordsIn, RecordsHeld, Held;
    Exchange(workers, w, p, open);
    ExchangeRecords(batches, workers, w, p, open);
    Cancel(HeldBy(workers[w := p], open), HeldBy(workers, open), multiset(Held(p, open)));
    Cancel(RecordsHeld(batches, workers[w := p], open), RecordsHeld(batches, workers, open),
           RecordsIn(batches, Held(p, open)));
  }

  lemma MoveKeeps(s: Sender, w: nat, p: Phase)
    requires Owned(s) && Filled(s) && Counted(s) && w < |s.workers|
    requires Held(p, false) == Held(s.workers[w], false) && Held(p, true) == Held(s.workers[w], true)
    ensures var t := s.(workers := s.workers[w := p]); Owned(t) && Filled(t) && Counted(t)
  {
    hide HeldBy, RecordsIn, BytesIn, RecordsHeld, Pool.Valid, BatchOk, Queue, Held, Places;
    SameHeld(s.pool.batches, s.workers, w, p, false);
    SameHeld(s.pool.batches, s.workers, w, p, true);
    var t := s.(workers := s.workers[w := p]);
    SameLists(s, t);
    SamePlaces(s, t);
    assert forall i :: BatchAt(t, i) == BatchAt(s, i);
  }

  lemma SameLists(s: Sender, t: Sender)
    requires t.ready == s.ready && t.current == s.current
    ensures Queue(t) == Queue(s)
  {
  }

  lemma FailedKeeps(s: Sender, w: nat)
    requires Inv(s) && w < |s.workers| && s.workers[w].Uploading?
    ensures Inv(Failed(s, w)) && Failed(s, w).accepted == s.accepted
  {
    hide HeldBy, RecordsIn, BytesIn, RecordsHeld, Pool.Valid, BatchOk;
    MoveKeeps(s, w, Failed(s, w).workers[w]);
  }

  /** The batch whose outcome is being settled. */
  lemma Settling(s: Sender, w: nat) returns (b: nat)
    requires Owned(s) && w < |s.workers| && (s.workers[w].Uploading? || s.workers[w].Exhausted?)
    ensures b == s.workers[w].batch && b in HeldBy(s.workers, false) && b < |s.pool.batches|
    ensures HeldBy(s.workers[w := Resolved(b)], false) == HeldBy(s.workers, false)
    ensures RecordsHeld(s.pool.batches, s.workers[w := Resolved(b)], false)
              == RecordsHeld(s.pool.batches, s.workers, false)
    ensures RecordsHeld(s.pool.batches, s.workers, true)
            == RecordsHeld(s.pool.batches, s.workers[w := Resolved(b)], true) + multiset(BatchAt(s, b).records)
  {
    hide HeldBy, RecordsIn, RecordsHeld, Pool.Valid, Places;
    b := s.workers[w].batch;
    SameHeld(s.pool.batches, s.workers, w, Resolved(b), false);
    ExchangeRecords(s.pool.batches, s.workers, w, Resolved(b), true);
    RecordsOne(s.pool.batches, b);
    NoRecords(s.pool.batches);
    HeldOne(s.workers, w);
    assert b in HeldBy(s.workers, false);
    InPlaces(s, b);
  }

  lemma SamePlaces(s: Sender, t: Sender)
    requires Owned(s) && t.pool == s.pool && Queue(t) == Queue(s)
             && HeldBy(t.workers, false) == HeldBy(s.workers, false)
    ensures Owned(t)
  {
    hide HeldBy, Pool.Valid, Queue;
    assert Places(t) == Places(s);
  }

  /** The outcome of a batch is settled: its records move, as a whole, to one side of the account. */
  lemma SettledKeeps(s: Sender, w: nat, b: nat, t: Sender)
    requires Inv(s) && w < |s.workers| && (s.workers[w].Uploading? || s.workers[w].Exhausted?)
             && s.workers[w].batch == b
    requires t == s.(workers := s.workers[w := Resolved(b)], acknowledged := t.acknowledged, dropped := t.dropped)
    requires t.acknowledged + t.dropped == s.acknowledged + s.dropped + multiset(BatchAt(s, b).records)
    ensures Inv(t)
  {
    hide HeldBy, RecordsIn, BytesIn, RecordsHeld, Pool.Valid, BatchOk, Queue, Places;
    var _ := Settling(s, w);
    SameLists(s, t);
    SamePlaces(s, t);
    assert forall i :: BatchAt(t, i) == BatchAt(s, i);
  }

  lemma SucceededKeeps(s: Sender, w: nat)
    requires Inv(s) && w < |s.workers| && s.workers[w].Uploading?
    ensures Inv(Succeeded(s, w)) && Succeeded(s, w).accepted == s.accepted
  {
    hide Inv;
    SettledKeeps(s, w, s.workers[w].batch, Succeeded(s, w));
  }

  lemma GaveUpKeeps(s: Sender, w: nat)
    requires Inv(s) && w < |s.workers| && s.workers[w].Exhausted?
    ensures Inv(GaveUp(s, w)) && GaveUp(s, w).accepted == s.accepted
  {
    hide Inv;
    SettledKeeps(s, w, s.workers[w].batch, GaveUp(s, w));
  }
}
