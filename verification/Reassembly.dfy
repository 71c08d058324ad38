/** The agent's reassembly of fragmented events, over whatever the ring allocator grants. */
module Reassembly {
  import opened Bytes
  import opened AuditRecord
  import opened Wrappers

  /** The counters and pending events of the agent's consumer thread. */
  datatype Agent = Agent(pending: map<nat, bytes>, lost: set<nat>, serverIp: bytes,
                         received: nat, pendingLost: nat, enqueueLost: nat)

  /** The allocator's answer: a segment with arbitrary old content, or none; a refusal may still have
    * dropped the key's own older segment. */
  datatype Grant = Granted(memory: bytes) | Refused(ownDropped: bool)

  /** What one record means for its event. */
  datatype Verdict =
    | Ignore
    | Direct(record: bytes)
    | Keep(segment: bytes)
    | Lose(drop: bool)
    | Complete(record: bytes)

  datatype Submission = Submission(key: nat, record: bytes)

  function Fragmented(e: bytes): bool
    requires HasHeader(e)
  {
    var flags := Field(e, FRAGMENT_FLAGS, 4);
    HasFlag(flags, SQL_FRAGMENTED) || HasFlag(flags, PARAMS_FRAGMENTED)
  }

  /** The room a field needs; the 64-bit length is cut to 32 bits before it is clamped. */
  function FullSql(e: bytes): nat
    requires HasHeader(e)
  {
    if HasFlag(Field(e, FRAGMENT_FLAGS, 4), SQL_FRAGMENTED) then Min(Field(e, QUERY_SQL_LEN, 8) % U32, CAPTURE_MAX)
    else Field(e, SQL_PAYLOAD_LEN, 4)
  }

  function FullParams(e: bytes): nat
    requires HasHeader(e)
  {
    if HasFlag(Field(e, FRAGMENT_FLAGS, 4), PARAMS_FRAGMENTED) then
      Min(Field(e, PARAMS_VALUE_LEN, 8) % U32, CAPTURE_MAX)
    else Field(e, PARAMS_PAYLOAD_LEN, 4)
  }

  function FullSize(e: bytes): nat
    requires HasHeader(e)
  {
    PAYLOAD + NamesLen(e) + FullSql(e) + FullParams(e)
  }

  function TryFill(segment: bytes, off: nat, data: bytes): (r: bytes)
    ensures |r| == |segment|
  {
    if off + |data| <= |segment| then Splice(segment, off, data) else segment
  }

  /** The payload lengths of an event stay inside its memory; forged lengths that wrap 32 bits do not. */
  predicate PayloadInside(e: bytes)
    requires HasHeader(e)
  {
    PAYLOAD + PayloadSum(e) <= |e|
  }

  /** The main record laid out in its segment: header, names, first SQL piece, first params piece. */
  function StoreMain(memory: bytes, e: bytes): (r: bytes)
    requires HasHeader(e) && PayloadInside(e)
    ensures |r| == |memory|
  {
    var names, sql, params := NamesLen(e), Field(e, SQL_PAYLOAD_LEN, 4), Field(e, PARAMS_PAYLOAD_LEN, 4);
    var s1 := TryFill(memory, 0, e[..PAYLOAD]);
    var s2 := TryFill(s1, PAYLOAD, e[PAYLOAD..PAYLOAD + names]);
    var s3 := TryFill(s2, PAYLOAD + names, e[PAYLOAD + names..PAYLOAD + names + sql]);
    TryFill(s3, PAYLOAD + names + FullSql(e), e[PAYLOAD + names + sql..PAYLOAD + names + sql + params])
  }

  function WithServerIp(e: bytes, ip: bytes): (r: bytes)
    requires HasHeader(e) && |ip| == MAX_IP_LEN
    ensures |r| == |e|
  {
    Splice(e, SERVER_IP, ip)
  }

  function MainVerdict(e: bytes, grant: Grant, ip: bytes): Verdict
    requires HasHeader(e) && |ip| == MAX_IP_LEN
    requires CompactSizeValid(e) ==> PayloadInside(e)
  {
    if !CompactSizeValid(e) then Ignore
    else if !Fragmented(e) then
      if Field(e, TOTAL_SIZE, 4) > MAIN_BUCKET then Ignore
      else Direct(WithServerIp(e[..PAYLOAD + PayloadSum(e)], ip))
    else
      match grant
      case Refused(ownDropped) => Lose(ownDropped)
      case Granted(memory) => Keep(StoreMain(memory, e))
  }

  /** A pending segment always has room for the whole event its header describes. */
  predicate SegmentOk(segment: bytes)
  {
    HasHeader(segment) && FullSize(segment) <= |segment|
  }

  /** The finished record: the segment cut to its full size, with its header brought up to date. */
  function Merged(segment: bytes, ip: bytes): (r: bytes)
    requires SegmentOk(segment) && |ip| == MAX_IP_LEN
    ensures |r| == FullSize(segment)
  {
    var s1 := Put(segment, SQL_PAYLOAD_LEN, 4, FullSql(segment));
    var s2 := Put(s1, PARAMS_PAYLOAD_LEN, 4, FullParams(segment));
    var s3 := Put(s2, RECORD_FLAGS, 2, WithFlag(Field(segment, RECORD_FLAGS, 2), LOGICAL_COMPLETE));
    var s4 := Put(s3, TOTAL_SIZE, 4, FullSize(segment));
    WithServerIp(s4, ip)[..FullSize(segment)]
  }

  function FragmentVerdict(segment: Option<bytes>, f: KernelRecord, ip: bytes): Verdict
    requires f.FragmentRecord? && f.payloadLen <= |f.payload| && |ip| == MAX_IP_LEN
    requires segment.Some? ==> SegmentOk(segment.value)
    ensures var v := FragmentVerdict(segment, f, ip); v.Keep? ==> SegmentOk(v.segment)
  {
    if f.totalSize < FRAGMENT_HEADER || f.payloadLen > FRAGMENT_PAYLOAD_MAX
       || FRAGMENT_HEADER + f.payloadLen != f.totalSize
    then Ignore
    else if segment.None? then Lose(false)
    else if f.field == NoField then Ignore
    else
      var seg := segment.value;
      var base := PAYLOAD + NamesLen(seg) + (if f.field == QuerySql then 0 else FullSql(seg));
      if base + f.fragmentOffset + f.payloadLen > |seg| then Lose(true)
      else
        var filled := Splice(seg, base + f.fragmentOffset, f.payload[..f.payloadLen]);
        SameHeader(seg, filled);
        if f.nextSeq != 0 && !HasFlag(f.recordFlags, LAST_FRAGMENT) then Keep(filled)
        else Complete(Merged(filled, ip))
  }

  /** Two buffers with the same header bytes agree on every header field and on all sizes. */
  lemma SameHeader(s: bytes, t: bytes)
    requires HasHeader(s) && |t| == |s| && forall i :: 0 <= i < PAYLOAD ==> s[i] == t[i]
    ensures forall o: nat, m: nat {:trigger Field(t, o, m)} :: o + m <= PAYLOAD ==> Field(t, o, m) == Field(s, o, m)
    ensures FullSql(t) == FullSql(s) && FullParams(t) == FullParams(s) && NamesLen(t) == NamesLen(s)
  {
    forall o: nat, m: nat | o + m <= PAYLOAD
      ensures Field(t, o, m) == Field(s, o, m)
    {
      assert t[o..o + m] == s[o..o + m];
    }
  }

  /** Every pending segment has room for its event. Granting at least the size asked for keeps it so. */
  ghost predicate AgentOk(a: Agent)
  {
    |a.serverIp| == MAX_IP_LEN && forall k :: k in a.pending ==> SegmentOk(a.pending[k])
  }

  /** The logical event a kernel record belongs to. */
  function KeyOf(r: KernelRecord): nat
  {
    match r
    case EventRecord(mem) => if HasHeader(mem) then Field(mem, EVENT_SEQ, 8) else 0
    case FragmentRecord(_, _, _, parentSeq, _, _, _, _, _) => parentSeq
  }

  /** A record as the kernel ring delivers it: a fragment carries the payload it announces, and an
    * event's payload lies inside its memory. */
  predicate RecordOk(r: KernelRecord)
  {
    match r
    case EventRecord(mem) =>
      HasHeader(mem) && CompactSizeValid(mem) && Field(mem, TOTAL_SIZE, 4) <= |mem| ==> PayloadInside(mem)
    case FragmentRecord(_, _, _, _, _, _, _, payloadLen, payload) => payloadLen <= |payload|
  }

  /** The allocator grants at least the size that `handle_main_event` asks for. */
  predicate GrantOk(r: KernelRecord, grant: Grant)
  {
    r.EventRecord? && HasHeader(r.mem) && grant.Granted? ==>
      PAYLOAD <= |grant.memory| && FullSize(r.mem) <= |grant.memory|
  }

  /** An event record that the agent takes in and counts as received. */
  predicate Received(r: KernelRecord)
  {
    r.EventRecord? && HasHeader(r.mem) && Field(r.mem, TOTAL_SIZE, 4) <= |r.mem|
    && PAYLOAD <= Field(r.mem, TOTAL_SIZE, 4) <= SIZEOF_EVENT
  }

  function VerdictOf(r: KernelRecord, segment: Option<bytes>, grant: Grant, ip: bytes): Verdict
    requires RecordOk(r) && |ip| == MAX_IP_LEN && (segment.Some? ==> SegmentOk(segment.value))
  {
    match r
    case EventRecord(mem) => if Received(r) then MainVerdict(mem, grant, ip) else Ignore
    case FragmentRecord(_, _, _, _, _, _, _, _, _) => FragmentVerdict(segment, r, ip)
  }

  function PendingOf(a: Agent, key: nat): Option<bytes>
  {
    if key in a.pending then Some(a.pending[key]) else None
  }

  /** Counts an event as lost, once, however many of its records ask for it. */
  function MarkLost(a: Agent, key: nat): Agent
  {
    if key == 0 || key in a.lost then a
    else a.(lost := a.lost + {key}, pendingLost := a.pendingLost + 1)
  }

  function Apply(a: Agent, key: nat, v: Verdict): (Agent, seq<Submission>)
  {
    match v
    case Ignore => (a, [])
    case Direct(record) => (a, [Submission(key, record)])
    case Keep(segment) => (a.(pending := a.pending[key := segment]), [])
    case Lose(drop) => (MarkLost(if drop then a.(pending := a.pending - {key}) else a, key), [])
    case Complete(record) => (a.(pending := a.pending - {key}, lost := a.lost - {key}), [Submission(key, record)])
  }

  /** One record, the allocator's answer should it be asked, and whether the sender takes a submission. */
  datatype Input = Input(record: KernelRecord, grant: Grant, accepted: bool)

  predicate InputOk(i: Input)
  {
    RecordOk(i.record) && GrantOk(i.record, i.grant)
  }

  function HandleEvent(a: Agent, i: Input): (Agent, seq<Submission>)
    requires AgentOk(a) && InputOk(i)
  {
    var key := KeyOf(i.record);
    var counted := if Received(i.record) then a.(received := a.received + 1) else a;
    var (a', out) := Apply(counted, key, VerdictOf(i.record, PendingOf(a, key), i.grant, a.serverIp));
    (if out != [] && !i.accepted then a'.(enqueueLost := a'.enqueueLost + 1) else a', out)
  }

  lemma StoredMainOk(memory: bytes, e: bytes)
    requires HasHeader(e) && PayloadInside(e) && |memory| >= PAYLOAD && FullSize(e) <= |memory|
    ensures SegmentOk(StoreMain(memory, e)) && FullSize(StoreMain(memory, e)) == FullSize(e)
    ensures StoreMain(memory, e)[..PAYLOAD] == e[..PAYLOAD]
  {
    hide FromLE, TryFill, Splice, HasFlag;
    var names, sql, params := NamesLen(e), Field(e, SQL_PAYLOAD_LEN, 4), Field(e, PARAMS_PAYLOAD_LEN, 4);
    var s1 := TryFill(memory, 0, e[..PAYLOAD]);
    var s2 := TryFill(s1, PAYLOAD, e[PAYLOAD..PAYLOAD + names]);
    var s3 := TryFill(s2, PAYLOAD + names, e[PAYLOAD + names..PAYLOAD + names + sql]);
    var s4 := StoreMain(memory, e);
    assert s4 == TryFill(s3, PAYLOAD + names + FullSql(e), e[PAYLOAD + names + sql..PAYLOAD + names + sql + params]);
    TryFillHeader(s1, PAYLOAD, e[PAYLOAD..PAYLOAD + names]);
    TryFillHeader(s2, PAYLOAD + names, e[PAYLOAD + names..PAYLOAD + names + sql]);
    TryFillHeader(s3, PAYLOAD + names + FullSql(e), e[PAYLOAD + names + sql..PAYLOAD + names + sql + params]);
    FillHeader(memory, e[..PAYLOAD]);
    SameFields(e, s4);
  }

  lemma FillHeader(segment: bytes, header: bytes)
    requires HasHeader(segment) && |header| == PAYLOAD
    ensures TryFill(segment, 0, header)[..PAYLOAD] == header
  {
  }

  lemma TryFillHeader(segment: bytes, off: nat, data: bytes)
    requires HasHeader(segment) && off >= PAYLOAD
    ensures TryFill(segment, off, data)[..PAYLOAD] == segment[..PAYLOAD]
  {
  }

  lemma SameFields(s: bytes, t: bytes)
    requires HasHeader(s) && HasHeader(t) && s[..PAYLOAD] == t[..PAYLOAD]
    ensures forall o: nat, m: nat {:trigger Field(t, o, m)} :: o + m <= PAYLOAD ==> Field(t, o, m) == Field(s, o, m)
    ensures FullSql(t) == FullSql(s) && FullParams(t) == FullParams(s) && NamesLen(t) == NamesLen(s)
  {
    forall o: nat, m: nat | o + m <= PAYLOAD
      ensures Field(t, o, m) == Field(s, o, m)
    {
      SliceOfSlice(s, 0, PAYLOAD, o, o + m);
      SliceOfSlice(t, 0, PAYLOAD, o, o + m);
    }
  }

  lemma HandleEventOk(a: Agent, i: Input)
    requires AgentOk(a) && InputOk(i)
    ensures AgentOk(HandleEvent(a, i).0)
  {
    hide SegmentOk, StoreMain, Merged, FragmentVerdict;
    if Received(i.record) && CompactSizeValid(i.record.mem) && Fragmented(i.record.mem) && i.grant.Granted? {
      StoredMainOk(i.grant.memory, i.record.mem);
    }
  }

  /** What one record does to the counters: it is received or not, its submission is refused or not, and its event
    * becomes a lost one or does not. Other events stay pending, or lost, as they were. */
  lemma CountersTell(a: Agent, i: Input)
    requires AgentOk(a) && InputOk(i)
    ensures var key, (b, out) := KeyOf(i.record), HandleEvent(a, i);
            && b.received == a.received + (if Received(i.record) then 1 else 0)
            && b.enqueueLost == a.enqueueLost + (if out != [] && !i.accepted then 1 else 0)
            && b.pendingLost == a.pendingLost + (if key in b.lost && key !in a.lost then 1 else 0)
            && |out| <= 1 && (out != [] ==> out[0].key == key)
            && (forall k :: k != key ==> PendingOf(b, k) == PendingOf(a, k) && (k in b.lost <==> k in a.lost))
  {
    hide VerdictOf, SegmentOk, KeyOf, Received;
  }

  /** A fragment of an event that the agent does not know makes it a lost one, unless it has no number. */
  lemma OrphanIsLost(a: Agent, i: Input)
    requires AgentOk(a) && InputOk(i) && i.record.FragmentRecord? && KeyOf(i.record) !in a.pending
    requires FRAGMENT_HEADER + i.record.payloadLen == i.record.totalSize && i.record.payloadLen <= FRAGMENT_PAYLOAD_MAX
    ensures var key, (b, out) := KeyOf(i.record), HandleEvent(a, i);
            out == [] && b.lost == (if key == 0 then a.lost else a.lost + {key}) && b.pending == a.pending
  {
    hide SegmentOk, FullSql, FullParams, NamesLen, Merged;
  }

  /** A fragmented main record that gets no segment makes its event a lost one. */
  lemma NoRoomIsLost(a: Agent, i: Input)
    requires AgentOk(a) && InputOk(i) && Received(i.record) && CompactSizeValid(i.record.mem)
             && Fragmented(i.record.mem)
    requires i.grant.Refused?
    ensures var key, (b, out) := KeyOf(i.record), HandleEvent(a, i);
            out == [] && b.lost == (if key == 0 then a.lost else a.lost + {key})
            && b.pending == if i.grant.ownDropped then a.pending - {key} else a.pending
  {
    hide SegmentOk, FullSql, FullParams, NamesLen, CompactSizeValid, Fragmented, PayloadInside;
  }

  /** The agent after a run of inputs, and everything it submitted on the way. */
  ghost function Run(a: Agent, xs: seq<Input>): (Agent, seq<Submission>)
    requires AgentOk(a) && forall i :: 0 <= i < |xs| ==> InputOk(xs[i])
    ensures AgentOk(Run(a, xs).0)
    decreases |xs|
  {
    if xs == [] then (a, []) else
      HandleEventOk(a, xs[0]);
      var (b, out) := HandleEvent(a, xs[0]);
      var (c, rest) := Run(b, xs[1..]);
      (c, out + rest)
  }

  /** The inputs, and the submissions, that concern one event. */
  function OwnInputs(xs: seq<Input>, key: nat): (r: seq<Input>)
    requires forall i :: 0 <= i < |xs| ==> InputOk(xs[i])
    ensures forall i :: 0 <= i < |r| ==> InputOk(r[i])
  {
    if xs == [] then []
    else if KeyOf(xs[0].record) == key then [xs[0]] + OwnInputs(xs[1..], key)
    else OwnInputs(xs[1..], key)
  }

  function OwnSubmissions(out: seq<Submission>, key: nat): seq<Submission>
  {
    if out == [] then []
    else if out[0].key == key then [out[0]] + OwnSubmissions(out[1..], key)
    else OwnSubmissions(out[1..], key)
  }

  lemma {:induction false} OwnJoin(first: seq<Submission>, second: seq<Submission>, key: nat)
    ensures OwnSubmissions(first + second, key) == OwnSubmissions(first, key) + OwnSubmissions(second, key)
  {
    if first == [] {
      assert first + second == second;
    } else {
      assert (first + second)[1..] == first[1..] + second;
      OwnJoin(first[1..], second, key);
    }
  }

  ghost predicate SameLane(a: Agent, b: Agent, key: nat)
  {
    a.serverIp == b.serverIp && PendingOf(a, key) == PendingOf(b, key) && (key in a.lost <==> key in b.lost)
  }

  /** A record of another event neither touches this event's state nor submits it. */
  lemma OtherEvent(a: Agent, i: Input, key: nat)
    requires AgentOk(a) && InputOk(i) && KeyOf(i.record) != key
    ensures SameLane(HandleEvent(a, i).0, a, key)
    ensures OwnSubmissions(HandleEvent(a, i).1, key) == []
  {
    hide VerdictOf, SegmentOk, KeyOf, Received;
    var out := HandleEvent(a, i).1;
    assert |out| <= 1;
    if |out| == 1 {
      assert out[1..] == [];
    }
  }

  /** What a record does to its own event depends on that event's state alone. */
  lemma OwnEvent(a: Agent, b: Agent, i: Input)
    requires AgentOk(a) && AgentOk(b) && InputOk(i) && SameLane(a, b, KeyOf(i.record))
    ensures SameLane(HandleEvent(a, i).0, HandleEvent(b, i).0, KeyOf(i.record))
    ensures HandleEvent(a, i).1 == HandleEvent(b, i).1
  {
    hide VerdictOf, SegmentOk, KeyOf, Received, Apply;
    var key := KeyOf(i.record);
    var v := VerdictOf(i.record, PendingOf(a, key), i.grant, a.serverIp);
    var a1 := if Received(i.record) then a.(received := a.received + 1) else a;
    var b1 := if Received(i.record) then b.(received := b.received + 1) else b;
    ApplySame(a1, b1, key, v);
  }

  lemma ApplySame(a: Agent, b: Agent, key: nat, v: Verdict)
    requires SameLane(a, b, key)
    ensures SameLane(Apply(a, key, v).0, Apply(b, key, v).0, key) && Apply(a, key, v).1 == Apply(b, key, v).1
  {
  }

  /** Interleaving does not matter: in any run, what happens to one event is what would happen if its
    * own records came alone. */
  lemma {:induction false} Projection(a: Agent, b: Agent, xs: seq<Input>, key: nat)
    requires AgentOk(a) && AgentOk(b) && SameLane(a, b, key)
    requires forall i :: 0 <= i < |xs| ==> InputOk(xs[i])
    ensures SameLane(Run(a, xs).0, Run(b, OwnInputs(xs, key)).0, key)
    ensures OwnSubmissions(Run(a, xs).1, key) == OwnSubmissions(Run(b, OwnInputs(xs, key)).1, key)
    decreases |xs|
  {
    hide HandleEvent, AgentOk, InputOk;
    if xs != [] {
      HandleEventOk(a, xs[0]);
      var (a', out) := HandleEvent(a, xs[0]);
      var rest := xs[1..];
      OwnJoin(out, Run(a', rest).1, key);
      if KeyOf(xs[0].record) == key {
        HandleEventOk(b, xs[0]);
        OwnEvent(a, b, xs[0]);
        var (b', out') := HandleEvent(b, xs[0]);
        Projection(a', b', rest, key);
        var own := [xs[0]] + OwnInputs(rest, key);
        assert OwnInputs(xs, key) == own && own[1..] == OwnInputs(rest, key);
        OwnJoin(out', Run(b', OwnInputs(rest, key)).1, key);
      } else {
        OtherEvent(a, xs[0], key);
        Projection(a', b, rest, key);
      }
    }
  }
}
