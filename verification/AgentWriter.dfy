/** The agent's consumer thread as it runs: counters in place, pending events in the ring allocator. */
module AgentWriter {
  import opened Bytes
  import opened Wrappers
  import opened AuditRecord
  import opened RingBuffer
  import opened RingRoom
  import opened Reassembly

  /** What the allocator answers to a request, as the reassembly sees it. */
  ghost predicate Answers(r: Ring, key: nat, total: nat, grant: Grant)
  {
    match r.Allocated(key, total).1
    case Some(place) => place.End() <= |r.mem| && grant == Granted(r.mem[place.offset..place.End()])
    case None => grant == Refused(0 < Align8(total) <= |r.mem|)
  }

  /** The main record of an event that continues in fragments: it needs a segment. */
  predicate NeedsSegment(r: KernelRecord)
  {
    Received(r) && CompactSizeValid(r.mem) && Fragmented(r.mem)
  }

  /** What a record does to the places in the ring. */
  function ChangeOf(r: KernelRecord): Change
  {
    if NeedsSegment(r) then Request(KeyOf(r), FullSize(r.mem)) else Release(KeyOf(r))
  }

  class WriterState {
    const pending: VarlenRingBuffer
    const serverIp: bytes
    var received: nat
    var pendingLost: nat
    var enqueueLost: nat
    var lostPendingEvents: set<nat>

    ghost predicate Valid()
      reads this, pending, pending.buffer
    {
      pending.State().Valid() && AgentOk(State())
    }

    /** The state that the reassembly results speak about. */
    ghost function State(): Agent
      requires pending.State().Valid()
      reads this, pending, pending.buffer
    {
      Agent(pending.State().Contents(), lostPendingEvents, serverIp, received, pendingLost, enqueueLost)
    }

    constructor (capacity: nat, serverIp: bytes)
      requires |serverIp| == MAX_IP_LEN
      ensures Valid() && fresh(pending) && fresh(pending.buffer)
      ensures State() == Agent(map[], {}, serverIp, 0, 0, 0)
    {
      pending := new VarlenRingBuffer(capacity);
      this.serverIp := serverIp;
      received, pendingLost, enqueueLost, lostPendingEvents := 0, 0, 0, {};
    }

    method MarkPendingLost(eventSeq: nat)
      requires pending.State().Valid()
      modifies this
      ensures pending.State() == old(pending.State())
      ensures State() == MarkLost(old(State()), eventSeq)
    {
      if eventSeq != 0 && eventSeq !in lostPendingEvents {
        lostPendingEvents := lostPendingEvents + {eventSeq};
        pendingLost := pendingLost + 1;
      }
    }

    /** `fill` on a pending segment, in terms of what is pending. */
    method Fill(key: nat, off: nat, data: bytes) returns (ok: bool)
      requires pending.State().Valid()
      modifies pending.buffer
      ensures pending.State().Valid()
      ensures SamePlaces(old(pending.State()), pending.State())
      ensures ok <==> key in old(State()).pending && off + |data| <= |old(State()).pending[key]|
      ensures var was := old(State());
              State() == if key in was.pending
                         then was.(pending := was.pending[key := TryFill(was.pending[key], off, data)])
                         else was
    {
      hide Ring.Valid, Ring.Contents, Ring.Filled, Splice;
      ghost var ring := pending.State();
      FillKeeps(ring, key, off, data);
      ok := pending.Fill(key, off, data);
      ContentsLength(ring);
      if key in ring.index && !ok {
        assert ring.Contents()[key := ring.Contents()[key]] == ring.Contents();
      }
    }

    method Erase(key: nat)
      requires pending.State().Valid()
      modifies pending
      ensures pending.State().Valid() && pending.buffer == old(pending.buffer)
      ensures Changes(old(pending.State()), Release(key), pending.State())
      ensures State() == old(State()).(pending := old(State()).pending - {key})
    {
      EraseKeeps(pending.State(), key);
      var _ := pending.Erase(key);
    }
  
    method Allocate(key: nat, total: nat) returns (ok: bool, ghost grant: Grant)
      requires pending.State().Valid() && total + 7 < U64
      modifies pending
      ensures pending.State().Valid() && pending.buffer == old(pending.buffer)
      ensures ok == grant.Granted? && Answers(old(pending.State()), key, total, grant)
      ensures pending.State() == old(pending.State()).Allocated(key, total).0
      ensures ok ==> |grant.memory| >= total
                     && State() == old(State()).(pending := old(State()).pending[key := grant.memory])
      ensures !ok ==> State() == old(State()).(pending := if grant.ownDropped then old(State()).pending - {key}
                                                          else old(State()).pending)
    {
      hide Ring.Valid, Ring.Contents, Ring.Allocated, Align8;
      ghost var ring := pending.State();
      var place := pending.Allocate(key, total);
      ok := place.Some?;
      if ok {
        AllocateGrants(ring, key, total);
        AllocatedPlace(ring, key, total);
        grant := Granted(ring.mem[place.value.offset..place.value.End()]);
        DropAndSet(ring.Contents(), key, grant.memory);
      } else {
        AllocateRefuses(ring, key, total);
        grant := Refused(0 < Align8(total) <= |ring.mem|);
      }
    }

    /** The three outcomes of a main event; the submission itself is left to the caller. */
    method HandleMainEvent(e: bytes) returns (out: seq<Submission>, ghost grant: Grant)
      requires Valid() && HasHeader(e) && (CompactSizeValid(e) ==> PayloadInside(e))
      modifies this, pending, pending.buffer
      ensures pending.State().Valid() && pending.buffer == old(pending.buffer)
      ensures if CompactSizeValid(e) && Fragmented(e) then
                var key := Field(e, EVENT_SEQ, 8);
                && Answers(old(pending.State()), key, FullSize(e), grant)
                && SamePlaces(old(pending.State()).Allocated(key, FullSize(e)).0, pending.State())
              else SamePlaces(old(pending.State()), pending.State())
      ensures grant.Granted? ==> PAYLOAD <= |grant.memory| && FullSize(e) <= |grant.memory|
      ensures (State(), out) == Apply(old(State()), Field(e, EVENT_SEQ, 8), MainVerdict(e, grant, serverIp))
    {
      assert |serverIp| == MAX_IP_LEN;
      hide Field, Splice, AgentOk, Ring.Valid, Ring.Contents, CompactSizeValid, Fragmented, StoreMain, WithServerIp;
      hide MarkLost;
      hide FullSql, FullParams, NamesLen;
      out, grant := [], Refused(false);
      var key := Field(e, EVENT_SEQ, 8);
      if !CompactSizeValid(e) {
        return;
      }
      if !Fragmented(e) {
        if Field(e, TOTAL_SIZE, 4) <= MAIN_BUCKET {
          out := [Submission(key, WithServerIp(e[..PAYLOAD + PayloadSum(e)], serverIp))];
        }
        return;
      }
      grant := StartPending(key, e);
    }

    /** Reserves the whole event's room and lays the main record out in it, or counts the event as lost. */
    method StartPending(key: nat, e: bytes) returns (ghost grant: Grant)
      requires pending.State().Valid() && HasHeader(e) && PayloadInside(e)
      modifies this, pending, pending.buffer
      ensures pending.State().Valid() && pending.buffer == old(pending.buffer)
      ensures grant.Granted? ==> FullSize(e) <= |grant.memory|
      ensures Answers(old(pending.State()), key, FullSize(e), grant)
      ensures SamePlaces(old(pending.State()).Allocated(key, FullSize(e)).0, pending.State())
      ensures State() == Apply(old(State()), key,
                               match grant case Refused(d) => Lose(d) case Granted(m) => Keep(StoreMain(m, e))).0
    {
      hide StoreMain, FullSize, MarkLost, Ring.Valid, Ring.Contents;
      SmallSize(e);
      var ok;
      ok, grant := Allocate(key, FullSize(e));
      if !ok {
        MarkPendingLost(key);
        return;
      }
      ghost var was := old(State()).pending;
      StoreMainRecord(key, e, grant.memory);
      SetTwice(was, key, grant.memory, StoreMain(grant.memory, e));
    }

    method StoreMainRecord(key: nat, e: bytes, ghost memory: bytes)
      requires pending.State().Valid() && HasHeader(e) && PayloadInside(e)
      requires key in State().pending && State().pending[key] == memory
      modifies pending.buffer
      ensures pending.State().Valid()
      ensures SamePlaces(old(pending.State()), pending.State())
      ensures State() == old(State()).(pending := old(State()).pending[key := StoreMain(memory, e)])
    {
      hide TryFill, FullSql, Ring.Valid, Ring.Contents, Field;
      ghost var was := State().pending;
      assert was == was[key := memory];
      var names, sql, params := NamesLen(e), Field(e, SQL_PAYLOAD_LEN, 4), Field(e, PARAMS_PAYLOAD_LEN, 4);
      ghost var seg := FillOwn(key, 0, e[..PAYLOAD], was, memory);
      seg := FillOwn(key, PAYLOAD, e[PAYLOAD..PAYLOAD + names], was, seg);
      seg := FillOwn(key, PAYLOAD + names, e[PAYLOAD + names..PAYLOAD + names + sql], was, seg);
      seg := FillOwn(key, PAYLOAD + names + FullSql(e), e[PAYLOAD + names + sql..PAYLOAD + names + sql + params], was,
                     seg);
    }

    /** A fill whose result the caller ignores. */
    method FillOwn(key: nat, off: nat, data: bytes, ghost was: map<nat, bytes>, ghost seg: bytes)
      returns (ghost filled: bytes)
      requires pending.State().Valid() && State().pending == was[key := seg]
      modifies pending.buffer
      ensures pending.State().Valid() && filled == TryFill(seg, off, data)
      ensures SamePlaces(old(pending.State()), pending.State())
      ensures State() == old(State()).(pending := was[key := filled])
    {
      hide TryFill, Ring.Valid, Ring.Contents;
      var _ := Fill(key, off, data);
      filled := TryFill(seg, off, data);
      SetTwice(was, key, seg, filled);
    }
  
    /** Brings the header of a finished segment up to date and takes the record out of it. */
    method FinishSegment(key: nat, ghost was: map<nat, bytes>, seg: bytes) returns (record: bytes)
      requires pending.State().Valid() && |serverIp| == MAX_IP_LEN && SegmentOk(seg)
      requires State().pending == was[key := seg]
      modifies this, pending, pending.buffer
      ensures pending.State().Valid() && pending.buffer == old(pending.buffer)
      ensures record == Merged(seg, serverIp) && Changes(old(pending.State()), Release(key), pending.State())
      ensures State() == old(State()).(pending := was - {key}, lost := old(State()).lost - {key})
    {
      hide Field, ToLE, HasFlag, FullSql, FullParams, NamesLen, Ring.Valid, Ring.Contents, Splice;
      ghost var s1 := FillOwn(key, SQL_PAYLOAD_LEN, ToLE(FullSql(seg), 4), was, seg);
      ghost var s2 := FillOwn(key, PARAMS_PAYLOAD_LEN, ToLE(FullParams(seg), 4), was, s1);
      ghost var s3 := FillOwn(key, RECORD_FLAGS, ToLE(WithFlag(Field(seg, RECORD_FLAGS, 2), LOGICAL_COMPLETE), 2),
                              was, s2);
      ghost var s4 := FillOwn(key, TOTAL_SIZE, ToLE(FullSize(seg), 4), was, s3);
      ghost var s5 := FillOwn(key, SERVER_IP, serverIp, was, s4);
      var found := pending.Find(key);
      assert found == Some(s5);
      record := found.value[..FullSize(seg)];
      lostPendingEvents := lostPendingEvents - {key};
      Erase(key);
      assert was[key := s5] - {key} == was - {key};
    }

    method HandleFragment(f: KernelRecord) returns (out: seq<Submission>)
      requires Valid() && f.FragmentRecord? && RecordOk(f)
      modifies this, pending, pending.buffer
      ensures pending.State().Valid() && pending.buffer == old(pending.buffer)
      ensures Changes(old(pending.State()), Release(f.parentSeq), pending.State())
      ensures (State(), out) == Apply(old(State()), f.parentSeq,
                                      FragmentVerdict(PendingOf(old(State()), f.parentSeq), f, serverIp))
    {
      assert |serverIp| == MAX_IP_LEN;
      hide Field, HasFlag, FullSql, FullParams, NamesLen, Ring.Valid, Ring.Contents, Splice, Merged, MarkLost, FullSize;
      out := [];
      var key := f.parentSeq;
      if f.totalSize < FRAGMENT_HEADER || f.payloadLen > FRAGMENT_PAYLOAD_MAX
         || FRAGMENT_HEADER + f.payloadLen != f.totalSize {
        return;
      }
      var found := pending.Find(key);
      if found.None? {
        MarkPendingLost(key);
        return;
      }
      if f.field == NoField {
        return;
      }
      assert SegmentOk(found.value);
      out := AddFragment(f, found.value);
    }

    /** A fragment whose event is pending: it is filled in, and the event submitted if it was the tail. */
    method AddFragment(f: KernelRecord, seg: bytes) returns (out: seq<Submission>)
      requires pending.State().Valid() && f.FragmentRecord? && RecordOk(f) && f.field != NoField
      requires |serverIp| == MAX_IP_LEN && SegmentOk(seg) && PendingOf(State(), f.parentSeq) == Some(seg)
      requires f.totalSize >= FRAGMENT_HEADER && f.payloadLen <= FRAGMENT_PAYLOAD_MAX
               && FRAGMENT_HEADER + f.payloadLen == f.totalSize
      modifies this, pending, pending.buffer
      ensures pending.State().Valid() && pending.buffer == old(pending.buffer)
      ensures Changes(old(pending.State()), Release(f.parentSeq), pending.State())
      ensures (State(), out) == Apply(old(State()), f.parentSeq, FragmentVerdict(Some(seg), f, serverIp))
    {
      hide Field, HasFlag, FullSql, FullParams, NamesLen, Ring.Valid, Ring.Contents, Splice, Merged, MarkLost;
      hide SegmentOk;
      var key := f.parentSeq;
      ghost var was := State().pending;
      out := [];
      SegmentHeader(seg);
      var at := PAYLOAD + NamesLen(seg) + (if f.field == QuerySql then 0 else FullSql(seg)) + f.fragmentOffset;
      assert was == was[key := seg];
      var ok := Fill(key, at, f.payload[..f.payloadLen]);
      if !ok {
        Erase(key);
        assert State().pending == was - {key};
        MarkPendingLost(key);
        return;
      }
      ghost var filled := Splice(seg, at, f.payload[..f.payloadLen]);
      assert State().pending == was[key := filled];
      if f.nextSeq != 0 && !HasFlag(f.recordFlags, LAST_FRAGMENT) {
        return;
      }
      FilledOk(seg, at, f.payload[..f.payloadLen]);
      var again := pending.Find(key);
      var record := FinishSegment(key, was, again.value);
      out := [Submission(key, record)];
    }

    method Dispatch(r: KernelRecord) returns (out: seq<Submission>, ghost grant: Grant)
      requires Valid() && RecordOk(r)
      modifies this, pending, pending.buffer
      ensures pending.State().Valid() && pending.buffer == old(pending.buffer)
      ensures GrantOk(r, grant)
      ensures Changes(old(pending.State()), ChangeOf(r), pending.State())
      ensures NeedsSegment(r) ==> Answers(old(pending.State()), KeyOf(r), FullSize(r.mem), grant)
      ensures var counted := if Received(r) then old(State()).(received := old(State()).received + 1) else old(State());
              (State(), out) == Apply(counted, KeyOf(r),
                                      VerdictOf(r, PendingOf(old(State()), KeyOf(r)), grant, serverIp))
    {
      hide FragmentVerdict, MainVerdict, Ring.Valid, Ring.Contents, CompactSizeValid, PayloadInside, FullSize;
      hide SegmentOk, Field, Apply;
      out, grant := [], Refused(false);
      if r.FragmentRecord? {
        out := HandleFragment(r);
      } else if Received(r) {
        received := received + 1;
        out, grant := HandleMainEvent(r.mem);
      } else {
        IgnoreKeeps(State(), KeyOf(r));
      }
    }

    /** One record off the kernel ring. */
    method HandleEvent(r: KernelRecord, accepted: bool) returns (out: seq<Submission>, ghost grant: Grant)
      requires Valid() && RecordOk(r)
      modifies this, pending, pending.buffer
      ensures Valid() && pending.buffer == old(pending.buffer)
      ensures GrantOk(r, grant)
      ensures Changes(old(pending.State()), ChangeOf(r), pending.State())
      ensures NeedsSegment(r) ==> Answers(old(pending.State()), KeyOf(r), FullSize(r.mem), grant)
      ensures (State(), out) == Reassembly.HandleEvent(old(State()), Input(r, grant, accepted))
    {
      hide VerdictOf, Ring.Valid, Ring.Contents, Received, Apply, AgentOk, GrantOk, RecordOk, KeyOf;
      ghost var before := State();
      out, grant := Dispatch(r);
      CountSubmission(out != [] && !accepted);
      HandleEventOk(before, Input(r, grant, accepted));
    }

    /** On exit every event still waiting for its tail is given up and counted. */
    method DropPending()
      requires Valid()
      modifies this, pending
      ensures Valid() && pending.buffer == old(pending.buffer)
      ensures State() == old(State()).(pending := map[],
                                       pendingLost := old(State()).pendingLost + |old(State()).pending|)
    {
      hide Ring.Valid, SegmentOk;
      var count := pending.Clear();
      EmptyView(pending.State());
      pendingLost := pendingLost + count;
    }

    method CountSubmission(refused: bool)
      requires pending.State().Valid()
      modifies this`enqueueLost
      ensures pending.State().Valid() && pending.State() == old(pending.State())
      ensures State() == if refused then old(State()).(enqueueLost := old(State()).enqueueLost + 1) else old(State())
    {
      if refused {
        enqueueLost := enqueueLost + 1;
      }
    }
  }

  lemma EmptyView(r: Ring)
    requires r.Valid() && r.index == map[]
    ensures r.Contents() == map[]
  {
  }

  lemma IgnoreKeeps(a: Agent, key: nat)
    ensures Apply(a, key, Ignore) == (a, [])
  {
  }

  lemma SegmentHeader(seg: bytes)
    requires SegmentOk(seg)
    ensures HasHeader(seg)
  {
  }

  lemma FilledOk(seg: bytes, off: nat, data: bytes)
    requires SegmentOk(seg) && off >= PAYLOAD && off + |data| <= |seg|
    ensures SegmentOk(Splice(seg, off, data)) && Splice(seg, off, data)[..PAYLOAD] == seg[..PAYLOAD]
  {
    hide Field, HasFlag;
    SpliceKeeps(seg, off, data, 0, PAYLOAD);
    SameFields(seg, Splice(seg, off, data));
  }

  lemma AllocatedPlace(r: Ring, key: nat, length: nat)
    requires r.Allocated(key, length).1.Some? && length + 7 < U64
    ensures r.Allocated(key, length).1.value == r.NextPlace(Align8(length)) && Align8(length) >= length
  {
  }

  lemma DropAndSet(m: map<nat, bytes>, key: nat, value: bytes)
    ensures (m - {key})[key := value] == m[key := value]
  {
  }

  lemma SetTwice(m: map<nat, bytes>, key: nat, first: bytes, second: bytes)
    ensures m[key := first][key := second] == m[key := second]
  {
  }

  /** Sizes come from 32-bit fields, so their sum stays far below 64 bits. */
  lemma SmallSize(e: bytes)
    requires HasHeader(e)
    ensures FullSize(e) + 7 < U64
  {
    hide FromLE;
    forall o: nat | o + 4 <= |e|
      ensures Field(e, o, 4) < U32
    {
      LoadBound(e[o..o + 4]);
      assert Pow256(4) == 256 * 256 * 256 * 256;
    }
  }

  lemma ContentsLength(r: Ring)
    requires r.Valid()
    ensures r.Contents().Keys == r.index.Keys
    ensures forall k :: k in r.index ==> |r.Contents()[k]| == r.index[k].length
  {
  }
}
