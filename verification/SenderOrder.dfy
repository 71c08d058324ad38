/** Where the batch sender puts a record, in which order batches leave, and when one is given up. */
module SenderOrder {
  import opened Bytes
  import opened Wrappers
  import opened BatchPool
  import opened BatchSender
  import opened SenderInvariant

  /** The open batch takes the record as it is. */
  predicate Fits(s: Sender, record: bytes, expired: bool)
  {
    s.current.Some? && !expired && |BatchAt(s, s.current.value).payload| + |record| <= s.batchBytes
  }

  /** What a submission demands of the record and of the sender. */
  predicate Welcome(s: Sender, record: bytes)
  {
    record != [] && s.started && !s.stopping && |record| <= s.batchBytes
  }

  lemma RoomSpec(s: Sender, size: nat, expired: bool)
    requires Inv(s)
    ensures var m := MakeRoom(s, size, expired);
            && Queue(m) == Queue(s) && m.pool == s.pool && m.batchBytes == s.batchBytes
            && (if s.current.Some? && !expired && |BatchAt(s, s.current.value).payload| + size <= s.batchBytes
                then m == s else m.current.None?)
  {
    hide Core;
    SealKeeps(s);
    SealInv(s);
    SealKeeps(if expired then Seal(s) else s);
    SealInv(if expired then Seal(s) else s);
  }

  /** A record is refused exactly when it is not welcome, or does not fit and no batch is free; then nothing
    * that waits changes. */
  lemma SubmitRefuses(s: Sender, record: bytes, expired: bool)
    requires Inv(s)
    ensures s.pool.Valid() && (s.current.Some? ==> s.current.value < |s.pool.batches|)
    ensures var (t, ok) := Submit(s, record, expired);
            && (ok <==> Welcome(s, record) && (Fits(s, record, expired) || s.pool.freeStack != []))
            && (!ok ==> Queue(t) == Queue(s) && t.pool == s.pool)
  {
    hide Core, Seal, Add, MakeRoom, Queue;
    SubmitKeeps(s, record, expired);
    RoomSpec(s, |record|, expired);
  }

  /** An accepted record goes behind the records of the open batch if it fits there, and else alone into a new
    * batch at the end of the queue. The batch stays open unless it is full. */
  lemma SubmitPlaces(s: Sender, record: bytes, expired: bool) returns (c: nat)
    requires Inv(s) && s.pool.Valid() && (s.current.Some? ==> s.current.value < |s.pool.batches|)
    requires Submit(s, record, expired).1
    ensures var t := Submit(s, record, expired).0;
            && BatchAt(t, c).records == (if Fits(s, record, expired) then BatchAt(s, c).records else []) + [record]
            && Queue(t) == (if Fits(s, record, expired) then Queue(s) else Queue(s) + [c])
            && (Fits(s, record, expired) ==> s.current == Some(c))
            && t.current == (if |BatchAt(t, c).payload| >= s.batchBytes then None else Some(c))
  {
    hide Core, Seal, MakeRoom, Queue, Open, Add, Pool.Valid, BatchAt;
    RoomSpec(s, |record|, expired);
    var m := MakeRoom(s, |record|, expired);
    MakeRoomKeeps(s, |record|, expired);
    CoreValid(m);
    var o := Open(m);
    OpenSpec(m);
    c := o.current.value;
    AddSpec(o, record);
  }

  lemma CoreValid(s: Sender)
    requires Inv(s)
    ensures s.pool.Valid()
  {
    hide Filled, Counted, Orderly;
  }

  lemma OpenSpec(s: Sender)
    requires s.pool.Valid() && Open(s).current.Some? && (s.current.Some? ==> s.current.value < |s.pool.batches|)
    ensures var o, c := Open(s), Open(s).current.value;
            && c < |o.pool.batches| && o.batchBytes == s.batchBytes
            && (s.current.Some? ==> o == s)
            && (s.current.None? ==> BatchAt(o, c) == EMPTY_BATCH && Queue(o) == Queue(s) + [c])
  {
  }

  lemma AddSpec(s: Sender, record: bytes)
    requires s.current.Some? && s.current.value < |s.pool.batches|
    ensures var t, c := Add(s, record), s.current.value;
            && BatchAt(t, c).records == BatchAt(s, c).records + [record] && Queue(t) == Queue(s)
            && t.current == (if |BatchAt(t, c).payload| >= s.batchBytes then None else Some(c))
  {
    var s' := Appended(s, record);
    assert BatchAt(s', s.current.value).recordCount > 0;
    assert Queue(s') == Queue(s);
    assert Queue(Seal(s')) == Queue(s');
  }

  /** Batches leave in the order in which they came. One turn of an idle worker gives it a batch exactly when one is
    * ready, or the open one has waited long enough; it is the head of the queue, for a first attempt. The worker
    * leaves exactly when the sender stops and nothing waits; else it goes on waiting. */
  lemma PopTakesOldest(s: Sender, w: nat, expired: bool)
    requires Inv(s) && w < |s.workers| && s.workers[w].Idle?
    ensures var t := Pop(s, w, expired);
            && |t.workers| == |s.workers|
               && (forall v :: 0 <= v < |s.workers| && v != w ==> t.workers[v] == s.workers[v])
            && (t.workers[w].Uploading? <==> s.ready != [] || (expired && s.current.Some?))
            && (t.workers[w].Uploading? ==>
                  Queue(s) == [t.workers[w].batch] + Queue(t) && t.workers[w].attempt == 0)
            && (t.workers[w].Exited? <==> s.stopping && Queue(s) == [])
            && (!t.workers[w].Uploading? ==> Queue(t) == Queue(s) && (t.workers[w].Idle? || t.workers[w].Exited?))
  {
    hide Core;
    var q := if expired then Seal(s) else s;
    SealKeeps(s);
    SealInv(s);
    if s.stopping {
      StoppingOpen(s);
    }
    Sealed(s);
    if q.ready != [] {
      var rest := QueueHead(q, w);
    } else if s.stopping {
      SealKeeps(q);
      SealInv(q);
    }
  }

  lemma StoppingOpen(s: Sender)
    requires Inv(s) && s.stopping
    ensures s.current.None?
  {
    hide Owned, Filled, Counted;
  }

  /** Sealing moves the open batch to the end of the ready ones. */
  lemma Sealed(s: Sender)
    requires Inv(s)
    ensures Seal(s).ready == Queue(s) && Seal(s).current.None?
  {
    hide Core;
  }
}
