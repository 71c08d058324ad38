/** What the probe can put in the kernel ring for one event, and what each record does to the agent's account. */
module AgentRecords {
  import opened Bytes
  import opened Wrappers
  import opened AuditRecord
  import opened Capture
  import opened Reassembly
  import opened RoundTrip

  /** A main record as the probe builds it. */
  ghost predicate WellMain(r: KernelRecord, key: nat)
  {
    && r.EventRecord? && |r.mem| == MAIN_BUCKET && key > 0 && KeyOf(r) == key
    && CompactSizeValid(r.mem) && Field(r.mem, TOTAL_SIZE, 4) == PAYLOAD + PayloadSum(r.mem) <= MAIN_BUCKET
  }

  predicate WellFragment(r: KernelRecord, key: nat)
  {
    && r.FragmentRecord? && r.parentSeq == key && r.field != NoField
    && FRAGMENT_HEADER + r.payloadLen == r.totalSize && r.payloadLen <= FRAGMENT_PAYLOAD_MAX
       && r.payloadLen <= |r.payload|
  }

  predicate IsTail(r: KernelRecord)
  {
    r.FragmentRecord? && (r.nextSeq == 0 || HasFlag(r.recordFlags, LAST_FRAGMENT))
  }

  /** Fragments of one event, of which at most the last is a tail. */
  predicate FragmentLane(fs: seq<KernelRecord>, key: nat)
  {
    forall i :: 0 <= i < |fs| ==> WellFragment(fs[i], key) && (IsTail(fs[i]) ==> i == |fs| - 1)
  }

  /** The records of one event from its main record on; only a fragmented event has fragments. */
  ghost predicate MainLane(fs: seq<KernelRecord>, key: nat)
  {
    && fs != [] && WellMain(fs[0], key) && FragmentLane(fs[1..], key)
    && (fs[1..] != [] ==> HasHeader(fs[0].mem) && Fragmented(fs[0].mem))
  }

  /** What the probe emits for any call is such a lane, and the last fragment is a tail. */
  lemma CaptureIsLane(call: AuditCall, e: bytes, q: nat, sqlSeq: nat, paramsSeq: nat, n: nat)
    requires call.Readable() && MainImage(e, call, q, n) && q > 0 && (LongParams(call) ==> paramsSeq > 0)
    ensures MainLane([EventRecord(e)] + Fragments(call, q, sqlSeq, paramsSeq), q)
    ensures var fs := Fragments(call, q, sqlSeq, paramsSeq); fs != [] ==> IsTail(fs[|fs| - 1])
  {
    hide MainImage, Names, FirstSql, FirstParams, Field, UserString.Text, CompactSizeValid;
    var fs := Fragments(call, q, sqlSeq, paramsSeq);
    MainImageValid(e, call, q, n);
    ImageSizes(e, call, q, n);
    ImageReceived(e, call, q, n);
    ImageFits(e, call, q, n);
    assert ([EventRecord(e)] + fs)[1..] == fs;
    FragmentsWell(call, q, sqlSeq, paramsSeq);
  }

  lemma FragmentsWell(call: AuditCall, q: nat, sqlSeq: nat, paramsSeq: nat)
    requires call.Readable() && (LongParams(call) ==> paramsSeq > 0)
    ensures var fs := Fragments(call, q, sqlSeq, paramsSeq);
            FragmentLane(fs, q) && (fs != [] ==> IsTail(fs[|fs| - 1]))
  {
    hide UserString.Text, Cut;
  }

  /** A pending segment that will make a valid record when its tail comes. */
  predicate Sound(segment: bytes)
  {
    SegmentOk(segment) && FullSize(segment) <= AUDIT_RECORD_MAX && Field(segment, RECORD_TYPE, 2) == EVENT_RECORD
  }

  /** The segment of the event that the key stands for. */
  predicate SoundFor(segment: bytes, key: nat)
  {
    Sound(segment) && Field(segment, EVENT_SEQ, 8) == key
  }

  /** A finished record names its event and the agent's address. */
  predicate Carries(record: bytes, key: nat, ip: bytes)
  {
    HasHeader(record) && Field(record, EVENT_SEQ, 8) == key && record[SERVER_IP..SERVER_IP + MAX_IP_LEN] == ip
  }

  lemma SameSound(s: bytes, t: bytes, key: nat)
    requires SoundFor(s, key) && |t| >= |s| && t[..PAYLOAD] == s[..PAYLOAD]
    ensures SoundFor(t, key)
  {
    hide Field, HasFlag;
    SameFields(s, t);
  }

  /** Whatever completes is a record that the collector's decoder accepts. */
  lemma MergedValid(seg: bytes, key: nat, ip: bytes)
    requires SoundFor(seg, key) && |ip| == MAX_IP_LEN
    ensures ValidRecord(Merged(seg, ip)) && Carries(Merged(seg, ip), key, ip)
  {
    hide Field, HasFlag, FullSql, FullParams, Merged;
    MergedFields(seg, ip);
    var out := Merged(seg, ip);
    assert Field(out, RECORD_TYPE, 2) == Field(seg, RECORD_TYPE, 2)
           && Field(out, EVENT_SEQ, 8) == Field(seg, EVENT_SEQ, 8);
    assert NamesLen(out) == NamesLen(seg);
  }

  lemma DirectValid(r: KernelRecord, key: nat, ip: bytes)
    requires WellMain(r, key) && |ip| == MAX_IP_LEN
    ensures ValidRecord(WithServerIp(r.mem[..PAYLOAD + PayloadSum(r.mem)], ip))
    ensures Carries(WithServerIp(r.mem[..PAYLOAD + PayloadSum(r.mem)], ip), key, ip)
  {
    hide Field, WithServerIp;
    var size := PAYLOAD + PayloadSum(r.mem);
    var cut := r.mem[..size];
    PrefixFields(r.mem, size);
    ServerIpKeeps(cut, ip);
    var out := WithServerIp(cut, ip);
    assert Field(out, RECORD_TYPE, 2) == Field(r.mem, RECORD_TYPE, 2)
           && Field(out, EVENT_SEQ, 8) == Field(r.mem, EVENT_SEQ, 8);
    assert NamesLen(out) == NamesLen(r.mem);
  }

  lemma FullSizeBound(e: bytes)
    requires HasHeader(e) && PAYLOAD + PayloadSum(e) <= MAIN_BUCKET
    ensures FullSize(e) <= MAIN_BUCKET + CAPTURE_MAX + CAPTURE_MAX
  {
    hide Field, HasFlag;
  }

  lemma StoredSound(r: KernelRecord, key: nat, memory: bytes)
    requires WellMain(r, key) && FullSize(r.mem) <= |memory| && |memory| >= PAYLOAD
    ensures PayloadInside(r.mem) && SoundFor(StoreMain(memory, r.mem), key)
  {
    hide Field, FullSql, FullParams, StoreMain, HasFlag;
    StoredMainOk(memory, r.mem);
    FullSizeBound(r.mem);
    SameFields(r.mem, StoreMain(memory, r.mem));
  }

  // One record and the account.

  /** Events that have left the received state one way, or are still pending. */
  function Settled(a: Agent): nat
  {
    a.enqueueLost + a.pendingLost + |a.pending|
  }

  ghost predicate AllSound(a: Agent)
  {
    AgentOk(a) && forall k :: k in a.pending ==> SoundFor(a.pending[k], k)
  }

  predicate Waiting(a: Agent, key: nat) { key in a.pending && key !in a.lost }

  predicate Gone(a: Agent, key: nat) { key !in a.pending && key in a.lost }

  predicate Closed(a: Agent, key: nat) { key !in a.pending && key !in a.lost }

  lemma GrowMap<K, V>(m: map<K, V>, k: K, v: V)
    ensures |m[k := v]| == if k in m then |m| else |m| + 1
  {
    assert m[k := v].Keys == m.Keys + {k};
  }

  lemma ShrinkMap<K, V>(m: map<K, V>, k: K)
    ensures |m - {k}| == if k in m then |m| - 1 else |m|
  {
    assert (m - {k}).Keys == m.Keys - {k};
  }

  /** A main record is received once, and then is submitted, pending, or lost, exactly one of them. */
  lemma MainSettles(a: Agent, i: Input, key: nat)
    requires AllSound(a) && InputOk(i) && WellMain(i.record, key) && Closed(a, key)
    ensures var (b, out) := HandleEvent(a, i);
            && AllSound(b) && b.received == a.received + 1 && |out| <= 1
            && Settled(b) + (if out != [] && i.accepted then 1 else 0) == Settled(a) + 1
            && (if out != [] then Closed(b, key) && ValidRecord(out[0].record)
                  && Carries(out[0].record, key, a.serverIp) else Waiting(b, key) || Gone(b, key))
            && (Fragmented(i.record.mem) <==> out == []) && b.serverIp == a.serverIp
  {
    hide Field, SegmentOk, SoundFor, Carries, ValidRecord, MainVerdict, Fragmented, WellMain, Received;
    hide CompactSizeValid, PayloadInside;
    HandleEventOk(a, i);
    AgentIp(a);
    WellReceived(i.record, key);
    MainOutcome(i.record, key, i.grant, a.serverIp);
    match MainVerdict(i.record.mem, i.grant, a.serverIp) {
      case Keep(segment) => GrowMap(a.pending, key, segment);
      case Lose(_) => assert a.pending - {key} == a.pending;
      case _ =>
    }
  }

  lemma MainOutcome(r: KernelRecord, key: nat, grant: Grant, ip: bytes)
    requires WellMain(r, key) && GrantOk(r, grant) && |ip| == MAX_IP_LEN
    ensures CompactSizeValid(r.mem) ==> PayloadInside(r.mem)
    ensures match MainVerdict(r.mem, grant, ip)
            case Direct(record) => ValidRecord(record) && Carries(record, key, ip) && !Fragmented(r.mem)
            case Keep(segment) => SoundFor(segment, key) && Fragmented(r.mem)
            case Lose(_) => Fragmented(r.mem)
            case _ => false
  {
    hide Field, StoreMain, WithServerIp, SoundFor, Carries, ValidRecord, HasFlag, FullSize, Fragmented;
    WellReceived(r, key);
    if Fragmented(r.mem) {
      if grant.Granted? {
        StoredSound(r, key, grant.memory);
      }
    } else {
      DirectValid(r, key, ip);
    }
  }

  lemma WellReceived(r: KernelRecord, key: nat)
    requires WellMain(r, key)
    ensures r.EventRecord? && KeyOf(r) == key > 0 && Received(r) && RecordOk(r) && HasHeader(r.mem)
            && CompactSizeValid(r.mem) && Field(r.mem, TOTAL_SIZE, 4) <= MAIN_BUCKET
  {
  }

  /** A fragment moves its event, if it is pending, at most once: to submitted, by its tail, or to lost.
    * For an event already lost it changes nothing, however many fragments arrive. */
  lemma FragmentSettles(a: Agent, i: Input, key: nat)
    requires AllSound(a) && InputOk(i) && WellFragment(i.record, key) && (Waiting(a, key) || Gone(a, key)) && key > 0
    ensures var (b, out) := HandleEvent(a, i);
            && AllSound(b) && b.received == a.received && |out| <= 1
            && Settled(b) + (if out != [] && i.accepted then 1 else 0) == Settled(a)
            && (if out != [] then Closed(b, key) && ValidRecord(out[0].record)
                  && Carries(out[0].record, key, a.serverIp) && IsTail(i.record)
                else Waiting(b, key) || Gone(b, key))
            && (Gone(a, key) ==> b == a && out == []) && b.serverIp == a.serverIp
  {
    hide Field, Splice, SegmentOk, SoundFor, Carries, ValidRecord, Merged, FullSize, FragmentVerdict, IsTail;
    HandleEventOk(a, i);
    AgentIp(a);
    if key in a.pending {
      var seg := a.pending[key];
      FragmentOutcome(seg, i.record, key, a.serverIp);
      match FragmentVerdict(Some(seg), i.record, a.serverIp) {
        case Keep(filled) => GrowMap(a.pending, key, filled);
        case _ => ShrinkMap(a.pending, key);
      }
    } else {
      GoneOutcome(i.record, key, a.serverIp);
    }
  }

  lemma FragmentOutcome(seg: bytes, f: KernelRecord, key: nat, ip: bytes)
    requires SoundFor(seg, key) && WellFragment(f, key) && |ip| == MAX_IP_LEN
    ensures match FragmentVerdict(Some(seg), f, ip)
            case Keep(filled) => SoundFor(filled, key)
            case Lose(drop) => drop
            case Complete(record) => ValidRecord(record) && Carries(record, key, ip) && IsTail(f)
            case _ => false
  {
    hide Field, HasFlag, FullSql, FullParams, NamesLen, Merged, ValidRecord, Carries;
    var at := PAYLOAD + NamesLen(seg) + (if f.field == QuerySql then 0 else FullSql(seg)) + f.fragmentOffset;
    if at + f.payloadLen <= |seg| {
      var filled := Splice(seg, at, f.payload[..f.payloadLen]);
      SpliceKeeps(seg, at, f.payload[..f.payloadLen], 0, PAYLOAD);
      SameSound(seg, filled, key);
      MergedValid(filled, key, ip);
    }
  }

  lemma GoneOutcome(f: KernelRecord, key: nat, ip: bytes)
    requires WellFragment(f, key) && |ip| == MAX_IP_LEN
    ensures FragmentVerdict(None, f, ip) == Lose(false)
  {
  }
}
